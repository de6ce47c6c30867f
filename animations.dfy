/** `animations.js`: its own cart badge helpers, which work on the page's
    first `.cart-badge-count` element rather than through
    `CartBadgeManager`, and the skeleton cards shown while content loads. */
module Animations {
  import opened Common
  import opened Text
  import opened Utils
  import opened Page
  import CartOverlay

  /** The badge after `updateCartBadge(count)`: its text is the count, it is
      hidden only for a count of exactly zero, and the pop animation is
      restarted on every call. */
  function Bumped(b: Badge, count: int): Badge {
    Badge(DecimalString(count), count != 0, b.pops + 1)
  }

  /** A span `updateCartBadge` creates: empty, with no inline display style. */
  const NewBadge := Badge("", true, 0)

  /** The page's badge after `updateCartBadge(count)`: the existing badge is
      updated; without one, a new badge is made under the `/cart` link;
      without either, nothing happens. */
  function BadgeAfterUpdate(badge: Option<Badge>, hasCartLink: bool, count: int): (r: Option<Badge>)
    ensures r.None? <==> badge.None? && !hasCartLink
  {
    if badge.Some? then Some(Bumped(badge.value, count))
    else if hasCartLink then Some(Bumped(NewBadge, count))
    else None
  }

  /** After `updateCartBadge(count)` the badge reads back as `count`, is
      displayed exactly when the count is not zero, and has restarted its
      pop animation. */
  lemma BumpedCount(b: Badge, count: int)
    ensures CartOverlay.Count(Bumped(b, count)) == count
    ensures Bumped(b, count).shown <==> count != 0
    ensures Bumped(b, count).pops > b.pops
  {
    ParseDecimalString(count);
  }

  /** The two scripts' badge updates write the same text; they show the
      badge alike except for a negative count, which only this one
      displays, and this one restarts the pop animation also for a count
      that is not positive. */
  lemma BumpedVersusUpdated(b: Badge, count: int)
    ensures Bumped(b, count).text == CartOverlay.Updated(b, count).text
    ensures Bumped(b, count).shown == CartOverlay.Updated(b, count).shown <==> count >= 0
    ensures Bumped(b, count).pops == CartOverlay.Updated(b, count).pops <==> count > 0
  {
  }

  /** `refreshCartBadge()` requests the cart for exactly the users
      `CartBadgeManager.refresh()` does: the raw token and role checks
      agree with the flags of `getAuthState()`. */
  lemma RefreshGuardsAgree(auth: AuthRecord)
    ensures (Truthy(auth.token) && auth.role == Some(CustomerRole)) <==>
            (GetAuthState(auth).isAuthenticated && GetAuthState(auth).isCustomer)
  {
  }

  /** The page as `animations.js` sees it: whether it has a `/cart` link,
      its first `.cart-badge-count` element, and how many badges these
      helpers have created. */
  class Document {
    var hasCartLink: bool
    var badge: Option<Badge>
    var badgesMade: nat

    constructor (cartLinkFound: bool, existing: Option<Badge>)
      ensures hasCartLink == cartLinkFound && badge == existing && badgesMade == 0
    {
      hasCartLink := cartLinkFound;
      badge := existing;
      badgesMade := 0;
    }

    /** `updateCartBadge(count)`. A badge is created only when there is
        none yet and the page has a `/cart` link, so repeated calls create
        at most one. */
    method UpdateCartBadge(count: int)
      modifies this
      ensures hasCartLink == old(hasCartLink)
      ensures badge == BadgeAfterUpdate(old(badge), hasCartLink, count)
      ensures badgesMade == old(badgesMade) + if old(badge).None? && hasCartLink then 1 else 0
    {
      var b: Badge;
      if badge.None? {
        if !hasCartLink {
          return;
        }
        b := NewBadge;
        badgesMade := badgesMade + 1;
      } else {
        b := badge.value;
      }
      b := b.(text := DecimalString(count));
      b := b.(pops := b.pops + 1);
      if count == 0 {
        b := b.(shown := false);
      } else {
        b := b.(shown := true);
      }
      badge := Some(b);
    }

    /** `refreshCartBadge()` once its fetch has ended as `reply`. It returns
        the `Authorization` header of the request it sent, and sends none
        unless a token is stored and the role is the customer's; only a
        reply that arrived updates the badge, to the number of units in
        the cart. */
    method RefreshCartBadge(auth: AuthRecord, reply: CartFetch) returns (request: Option<string>)
      modifies this
      ensures request.Some? <==> Truthy(auth.token) && auth.role == Some(CustomerRole)
      ensures request.Some? ==> request.value == "Bearer " + auth.token.value
      ensures hasCartLink == old(hasCartLink)
      ensures badge == if request.Some? && reply.Fetched?
                       then BadgeAfterUpdate(old(badge), hasCartLink, ItemCount(reply.cart))
                       else old(badge)
    {
      var token := auth.token;
      var role := auth.role;
      if token.None? || token.value == "" || role != Some(CustomerRole) {
        return None;
      }
      request := Some("Bearer " + token.value);
      if reply.Fetched? {
        var count := ItemCount(reply.cart);
        UpdateCartBadge(count);
      }
    }
  }

  // ---- skeleton loading -------------------------------------------------

  /** The markup of one skeleton card. */
  const CardTemplate :=
    "\n      <div class=\"card\">\n" +
    "        <div class=\"skeleton skeleton-card\"></div>\n" +
    "        <div class=\"card-content\">\n" +
    "          <div class=\"skeleton skeleton-title\"></div>\n" +
    "          <div class=\"skeleton skeleton-text\"></div>\n" +
    "          <div class=\"skeleton skeleton-text\"></div>\n" +
    "        </div>\n" +
    "      </div>\n    "

  /** `n` copies of `s`, one after the other. */
  function Repeat(s: string, n: nat): string {
    if n == 0 then "" else Repeat(s, n - 1) + s
  }

  /** `n` copies of `s` are `n` times as long, and copy `i` sits at
      offset `i * |s|`. */
  lemma {:induction false} RepeatBlocks(s: string, n: nat)
    ensures |Repeat(s, n)| == n * |s|
    ensures forall i :: 0 <= i < n ==> Repeat(s, n)[i * |s| .. (i + 1) * |s|] == s
  {
    if n > 0 {
      RepeatBlocks(s, n - 1);
      var front := Repeat(s, n - 1);
      NextMultiple(n - 1, |s|);
      forall i | 0 <= i < n ensures Repeat(s, n)[i * |s| .. (i + 1) * |s|] == s {
        NextMultiple(i, |s|);
        if i < n - 1 {
          MultipleBelow(i + 1, n - 1, |s|);
          SliceOfFront(front, s, i * |s|, (i + 1) * |s|);
        } else {
          SliceOfFront(front, s, |front|, |front| + |s|);
        }
      }
    }
  }

  /** `(i + 1) * w` is `w` past `i * w`. */
  lemma NextMultiple(i: nat, w: nat)
    ensures (i + 1) * w == i * w + w
  {
  }

  /** Multiples of `w` grow with the factor. */
  lemma MultipleBelow(i: nat, j: nat, w: nat)
    requires i <= j
    ensures i * w <= j * w
  {
  }

  /** A slice of `a + b` that starts at or ends before the seam is a slice
      of `a` or, from the seam, all of `b`. */
  lemma SliceOfFront<T>(a: seq<T>, b: seq<T>, lo: nat, hi: nat)
    requires lo <= hi && (hi <= |a| || (lo == |a| && hi == |a| + |b|))
    ensures hi <= |a| ==> (a + b)[lo..hi] == a[lo..hi]
    ensures lo == |a| && hi == |a| + |b| ==> (a + b)[lo..hi] == b
  {
  }

  /** `createSkeletonCards(count = 3)`: `count` skeleton cards, and the
      empty string when `count` is zero or negative. */
  method CreateSkeletonCards(count: int := 3) returns (html: string)
    ensures html == Repeat(CardTemplate, if count > 0 then count else 0)
    ensures count <= 0 ==> html == ""
    ensures |html| == (if count > 0 then count else 0) * |CardTemplate|
  {
    html := "";
    var i := 0;
    while i < count
      invariant 0 <= i <= if count > 0 then count else 0
      invariant html == Repeat(CardTemplate, i)
    {
      html := html + CardTemplate;
      i := i + 1;
    }
    RepeatBlocks(CardTemplate, i);
  }
}
