/** The navigation bar (src/components/Navbar.tsx): the menu, profile and
    login panels, the cart and wishlist badges, and the mobile breakpoint. */
module Nav {
  import opened Common

  /** The cart fields the badge reads. */
  datatype CartItem = CartItem(id: string, quantity: int)

  /** `cart.reduce((total, item) => total + item.quantity, 0)`. */
  function CartItemsCount(cart: seq<CartItem>): int {
    if cart == [] then 0 else CartItemsCount(cart[..|cart| - 1]) + cart[|cart| - 1].quantity
  }

  /** Adding items to the cart adds their quantities to the badge. */
  lemma {:induction false} CartItemsCountAppend(a: seq<CartItem>, b: seq<CartItem>)
    ensures CartItemsCount(a + b) == CartItemsCount(a) + CartItemsCount(b)
    decreases |b|
  {
    if b == [] {
      assert a + b == a;
    } else {
      assert (a + b)[..|a + b| - 1] == a + b[..|b| - 1];
      CartItemsCountAppend(a, b[..|b| - 1]);
    }
  }

  /** A badge is drawn only for a positive count. */
  predicate ShowBadge(count: int) {
    count > 0
  }

  /** With no negative quantities, the cart badge shows iff some item has a positive quantity. */
  lemma {:induction false} CartBadgeShown(cart: seq<CartItem>)
    requires forall i :: 0 <= i < |cart| ==> cart[i].quantity >= 0
    ensures CartItemsCount(cart) >= 0
    ensures ShowBadge(CartItemsCount(cart)) <==> exists i :: 0 <= i < |cart| && cart[i].quantity > 0
  {
    if cart != [] {
      var init := cart[..|cart| - 1];
      CartBadgeShown(init);
      if exists i :: 0 <= i < |init| && init[i].quantity > 0 {
        var i :| 0 <= i < |init| && init[i].quantity > 0;
        assert cart[i] == init[i];
      }
      if exists i :: 0 <= i < |cart| && cart[i].quantity > 0 {
        var i :| 0 <= i < |cart| && cart[i].quantity > 0;
        if i < |init| {
          assert init[i] == cart[i];
        }
      }
    }
  }

  /** The wishlist count when storage changes: the stored list's length, or 0 when nothing is stored. */
  function StoredWishlistCount(saved: Option<seq<string>>): (n: nat)
    ensures saved.None? ==> n == 0
    ensures saved.Some? ==> n == |saved.value|
  {
    match saved
    case None => 0
    case Some(list) => |list|
  }

  /** The navbar's mobile breakpoint, in pixels. */
  const MobileBreakpoint: int := 640

  /** The navbar's component state. */
  class Navbar {
    var isMenuOpen: bool
    var isProfileOpen: bool
    var isLoginModalOpen: bool
    var wishlistCount: nat
    var isMobile: bool

    /** The menu dropdown and the profile sidebar are never open together. */
    ghost predicate Valid()
      reads this
    {
      !(isMenuOpen && isProfileOpen)
    }

    constructor ()
      ensures Valid()
      ensures !isMenuOpen && !isProfileOpen && !isLoginModalOpen && wishlistCount == 0 && !isMobile
    {
      isMenuOpen := false;
      isProfileOpen := false;
      isLoginModalOpen := false;
      wishlistCount := 0;
      isMobile := false;
    }

    /** `handleMenuClick`: closes the profile and flips the menu. */
    method MenuClick()
      requires Valid()
      modifies this`isMenuOpen, this`isProfileOpen
      ensures Valid()
      ensures isMenuOpen == !old(isMenuOpen) && !isProfileOpen
    {
      if isProfileOpen {
        isProfileOpen := false;
      }
      isMenuOpen := !isMenuOpen;
    }

    /** `handleProfileClick`: closes the menu, then opens the profile for a
        signed-in user and the login modal otherwise. */
    method ProfileClick(signedIn: bool)
      requires Valid()
      modifies this`isMenuOpen, this`isProfileOpen, this`isLoginModalOpen
      ensures Valid()
      ensures !isMenuOpen
      ensures signedIn ==> isProfileOpen && isLoginModalOpen == old(isLoginModalOpen)
      ensures !signedIn ==> isLoginModalOpen && isProfileOpen == old(isProfileOpen)
    {
      if isMenuOpen {
        isMenuOpen := false;
      }
      if signedIn {
        isProfileOpen := true;
      } else {
        isLoginModalOpen := true;
      }
    }

    /** The effect on a change of route: both panels close. */
    method RouteChanged()
      modifies this`isMenuOpen, this`isProfileOpen
      ensures Valid()
      ensures !isMenuOpen && !isProfileOpen
    {
      isMenuOpen := false;
      isProfileOpen := false;
    }

    /** A mouse-down anywhere on the document: it closes the open menu when
        it lands outside the navbar's menu container, and does nothing else. */
    method MouseDown(insideMenuContainer: bool)
      requires Valid()
      modifies this`isMenuOpen
      ensures Valid()
      ensures isMenuOpen == (old(isMenuOpen) && insideMenuContainer)
    {
      if isMenuOpen {
        if !insideMenuContainer {
          isMenuOpen := false;
        }
      }
    }

    /** Choosing an entry of the menu: navigate, then close the menu. */
    method MenuItemClick()
      requires Valid()
      modifies this`isMenuOpen
      ensures Valid() && !isMenuOpen
    {
      isMenuOpen := false;
    }

    /** The profile sidebar's backdrop, close button, entries and logout button all close it. */
    method CloseProfile()
      requires Valid()
      modifies this`isProfileOpen
      ensures Valid() && !isProfileOpen
    {
      isProfileOpen := false;
    }

    /** The login modal's close callback. */
    method CloseLoginModal()
      requires Valid()
      modifies this`isLoginModalOpen
      ensures Valid() && !isLoginModalOpen
    {
      isLoginModalOpen := false;
    }

    /** The wishlist count read in the menu effect: set from a stored list, left alone otherwise. */
    method LoadWishlistCount(saved: Option<seq<string>>)
      modifies this`wishlistCount
      ensures wishlistCount == if saved.Some? then |saved.value| else old(wishlistCount)
    {
      if saved.Some? {
        wishlistCount := |saved.value|;
      }
    }

    /** The 'storage' and 'wishlistUpdated' listener: the stored list's length, or 0. */
    method WishlistStorageChanged(saved: Option<seq<string>>)
      modifies this`wishlistCount
      ensures wishlistCount == StoredWishlistCount(saved)
    {
      if saved.Some? {
        wishlistCount := |saved.value|;
      } else {
        wishlistCount := 0;
      }
    }

    /** `checkMobile` on mount and on every resize. */
    method CheckMobile(innerWidth: int)
      modifies this`isMobile
      ensures isMobile <==> innerWidth < MobileBreakpoint
    {
      isMobile := innerWidth < MobileBreakpoint;
    }
  }
}
