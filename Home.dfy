/** The home page (src/pages/Index.tsx): the wishlist toggle, the latch
    set by the hero's completion callback, and the mobile breakpoint. */
module Home {
  import opened Common
  import opened Seqs
  import Nav

  /** The wishlist after `handleAddToWishlist(id)`: appended when absent,
      every copy removed when present. */
  function Toggled(wishlist: seq<string>, id: string): seq<string> {
    if id in wishlist then RemoveAll(wishlist, id) else wishlist + [id]
  }

  /** The toast each branch shows. */
  function ToggleToast(wasListed: bool): (t: Toast)
    ensures t.kind == (if wasListed then Info else Success)
  {
    if wasListed then Toast(Info, "Removed from Wishlist") else Toast(Success, "Added to Wishlist")
  }

  /** Toggling flips whether the id is listed. */
  lemma ToggleFlipsMembership(wishlist: seq<string>, id: string)
    ensures id in Toggled(wishlist, id) <==> id !in wishlist
  {
  }

  /** An absent id goes to the end, so the list grows by one; a present id
      loses every copy, so the list shrinks by its number of copies. */
  lemma ToggleLength(wishlist: seq<string>, id: string)
    ensures id !in wishlist ==>
      |Toggled(wishlist, id)| == |wishlist| + 1 && Toggled(wishlist, id)[|wishlist|] == id
    ensures id in wishlist ==> |Toggled(wishlist, id)| == |wishlist| - Count(wishlist, id)
  {
    if id in wishlist {
      RemoveAllLength(wishlist, id);
    }
  }

  lemma {:induction false} RemoveAllLength(s: seq<string>, x: string)
    ensures |RemoveAll(s, x)| == |s| - Count(s, x)
  {
    if s != [] {
      RemoveAllLength(s[1..], x);
      assert RemoveAll(s, x) == if s[0] != x then [s[0]] + RemoveAll(s[1..], x) else RemoveAll(s[1..], x);
    }
  }

  /** The other ids are kept, with their multiplicities and in the same relative order. */
  lemma ToggleKeepsOthers(wishlist: seq<string>, id: string)
    ensures RemoveAll(Toggled(wishlist, id), id) == RemoveAll(wishlist, id)
    ensures forall x :: x != id ==> Count(Toggled(wishlist, id), x) == Count(wishlist, x)
  {
    var t := Toggled(wishlist, id);
    if id in wishlist {
      RemoveAllAbsent(t, id);
    } else {
      FilterAppend(wishlist, [id], Differs(id));
      assert Filter([id], Differs(id)) == [];
    }
    assert RemoveAll(t, id) == RemoveAll(wishlist, id);
    forall x | x != id ensures Count(t, x) == Count(wishlist, x) {
      RemoveAllCount(t, id, x);
      RemoveAllCount(wishlist, id, x);
    }
  }

  /** Toggling an absent id twice gives back the original list. */
  lemma ToggleTwiceRestores(wishlist: seq<string>, id: string)
    requires id !in wishlist
    ensures Toggled(Toggled(wishlist, id), id) == wishlist
  {
    FilterAppend(wishlist, [id], Differs(id));
    assert Filter([id], Differs(id)) == [];
    RemoveAllAbsent(wishlist, id);
  }

  /** A duplicate-free wishlist stays duplicate-free. */
  lemma ToggleKeepsNoDup(wishlist: seq<string>, id: string)
    requires NoDup(wishlist)
    ensures NoDup(Toggled(wishlist, id))
  {
    if id in wishlist {
      RemoveAllNoDup(wishlist, id);
    } else {
      forall x ensures Count(wishlist + [id], x) <= 1 {
        CountAppend(wishlist, [id], x);
        CountZeroIffAbsent(wishlist, x);
      }
    }
  }

  /** The home page's mobile breakpoint, in pixels. */
  const MobileBreakpoint: int := 768

  /** The home page's component state; `storedWishlist` is the 'wishlist'
      entry of local storage. */
  class IndexPage {
    var wishlist: seq<string>
    var storedWishlist: Option<seq<string>>
    var navbarVisible: bool
    var isMobile: bool

    constructor (stored: Option<seq<string>>)
      ensures wishlist == [] && storedWishlist == stored && !navbarVisible && !isMobile
    {
      wishlist := [];
      storedWishlist := stored;
      navbarVisible := false;
      isMobile := false;
    }

    /** The mount effect: restore the stored wishlist if there is one. */
    method LoadWishlist()
      modifies this`wishlist
      ensures wishlist == if storedWishlist.Some? then storedWishlist.value else old(wishlist)
    {
      if storedWishlist.Some? {
        wishlist := storedWishlist.value;
      }
    }

    /** `handleAddToWishlist`: copy the list, then push the id if it is
        absent or drop every copy of it if it is present; store the result
        and report which happened. */
    method AddToWishlist(productId: string) returns (toast: Toast)
      modifies this`wishlist, this`storedWishlist
      ensures wishlist == Toggled(old(wishlist), productId)
      ensures storedWishlist == Some(wishlist)
      ensures toast == ToggleToast(productId in old(wishlist))
    {
      var currentWishlist := wishlist;
      if productId !in currentWishlist {
        currentWishlist := currentWishlist + [productId];
        wishlist := currentWishlist;
        storedWishlist := Some(currentWishlist);
        toast := Toast(Success, "Added to Wishlist");
      } else {
        var updatedWishlist := RemoveAll(currentWishlist, productId);
        wishlist := updatedWishlist;
        storedWishlist := Some(updatedWishlist);
        toast := Toast(Info, "Removed from Wishlist");
      }
    }

    /** `handleButterflyComplete`: a one-way latch. */
    method ButterflyComplete()
      modifies this`navbarVisible
      ensures navbarVisible
    {
      navbarVisible := true;
    }

    /** `checkMobile` on mount and on every resize. */
    method CheckMobile(innerWidth: int)
      modifies this`isMobile
      ensures isMobile <==> innerWidth < MobileBreakpoint
    {
      isMobile := innerWidth < MobileBreakpoint;
    }
  }

  /** A wishlist toggle on the home page followed by the 'wishlistUpdated'
      event it dispatches: the navbar's listener reads the stored list, so
      its badge count follows the page's new wishlist. */
  method ToggleAndNotify(page: IndexPage, nav: Nav.Navbar, productId: string) returns (toast: Toast)
    modifies page, nav
    ensures page.wishlist == Toggled(old(page.wishlist), productId)
    ensures toast == ToggleToast(productId in old(page.wishlist))
    ensures nav.wishlistCount == |page.wishlist|
    ensures Nav.ShowBadge(nav.wishlistCount) <==> page.wishlist != []
    ensures page.storedWishlist == Some(page.wishlist)
    ensures page.navbarVisible == old(page.navbarVisible) && page.isMobile == old(page.isMobile)
    ensures nav.isMenuOpen == old(nav.isMenuOpen) && nav.isProfileOpen == old(nav.isProfileOpen)
    ensures nav.isLoginModalOpen == old(nav.isLoginModalOpen) && nav.isMobile == old(nav.isMobile)
  {
    toast := page.AddToWishlist(productId);
    nav.WishlistStorageChanged(page.storedWishlist);
  }
}
