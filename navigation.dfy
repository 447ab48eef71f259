/** The navigation bar: the shortened wallet address and which page links it offers. */
module Navigation {
  import opened Wrappers
  import Seqs

  /** `formatAddress`: the first four characters, an ellipsis, the last four. */
  function FormatAddress(address: string): string {
    Seqs.FirstN(address, 4) + "..." + Seqs.LastN(address, 4)
  }

  /**
   * An address of at least eight characters shortens to eleven: its first four, "..."
   * and its last four.  A shorter one is shown whole on both sides of the ellipsis.
   */
  lemma FormatAddressShape(address: string)
    ensures |address| >= 8 ==> var r := FormatAddress(address);
      && |r| == 11
      && r[..4] == address[..4]
      && r[4..7] == "..."
      && r[7..] == address[|address| - 4..]
    ensures |address| <= 4 ==> FormatAddress(address) == address + "..." + address
  {
    var r := FormatAddress(address);
    if |address| >= 8 {
      assert r == address[..4] + "..." + address[|address| - 4..];
      assert r[..4] == address[..4];
      assert r[4..7] == "...";
      assert r[7..] == address[|address| - 4..];
    }
  }

  /** One entry of `navItems`. */
  datatype NavItem = NavItem(id: string, caption: string, alwaysVisible: bool, requiresPlayer: bool,
                             requiresDev: bool, badge: Option<string>)

  /** The declared entries, in their order. */
  const NavItems: seq<NavItem> := [
    NavItem("home", "Home", true, false, false, None),
    NavItem("arsenal", "Arsenal", false, true, false, None),
    NavItem("pvp", "Battle Arena", true, false, false, Some("🔥HOT")),
    NavItem("docs", "Docs", true, false, false, None),
    NavItem("admin", "Admin", false, false, true, None)
  ]

  /**
   * The filter's condition.  `publicKey` is the connected wallet, and `isDevWallet` is
   * the dev-wallet test of a module that is not part of this model.
   */
  predicate Visible(item: NavItem, hasPlayer: bool, publicKey: Option<string>, isDevWallet: string -> bool) {
    || item.alwaysVisible
    || (item.requiresPlayer && hasPlayer)
    || (item.requiresDev && publicKey.Some? && isDevWallet(publicKey.value))
  }

  function VisibleNavItems(hasPlayer: bool, publicKey: Option<string>, isDevWallet: string -> bool): seq<NavItem> {
    Seqs.Filter(NavItems, item => Visible(item, hasPlayer, publicKey, isDevWallet))
  }

  /** What the filter keeps of five entries, one entry at a time. */
  lemma FilterFive<T>(s: seq<T>, p: T -> bool)
    requires |s| == 5
    ensures Seqs.Filter(s, p) ==
      (if p(s[0]) then [s[0]] else []) + (if p(s[1]) then [s[1]] else []) + (if p(s[2]) then [s[2]] else [])
      + (if p(s[3]) then [s[3]] else []) + (if p(s[4]) then [s[4]] else [])
  {
    var keep := (i: nat) requires i < |s| => if p(s[i]) then [s[i]] else [];
    assert s[..1][..0] == [];
    assert Seqs.Filter(s[..1], p) == keep(0);
    assert s[..2][..1] == s[..1];
    assert Seqs.Filter(s[..2], p) == keep(0) + keep(1);
    assert s[..3][..2] == s[..2];
    assert Seqs.Filter(s[..3], p) == keep(0) + keep(1) + keep(2);
    assert s[..4][..3] == s[..3];
    assert Seqs.Filter(s[..4], p) == keep(0) + keep(1) + keep(2) + keep(3);
    assert s[..5][..4] == s[..4];
    assert s[..5] == s;
  }

  /**
   * Home, Battle Arena and Docs are always offered; Arsenal exactly when there is a
   * player; Admin exactly when a dev wallet is connected; and the declared order is kept.
   */
  lemma VisibleNavItemsExactly(hasPlayer: bool, publicKey: Option<string>, isDevWallet: string -> bool)
    ensures var isDev := publicKey.Some? && isDevWallet(publicKey.value);
      VisibleNavItems(hasPlayer, publicKey, isDevWallet) ==
        [NavItems[0]] + (if hasPlayer then [NavItems[1]] else []) + [NavItems[2], NavItems[3]]
        + (if isDev then [NavItems[4]] else [])
  {
    FilterFive(NavItems, item => Visible(item, hasPlayer, publicKey, isDevWallet));
  }

  /** "Enter War" is offered to a connected wallet that has no player yet. */
  predicate ShowsEnterWar(connected: bool, hasPlayer: bool) {
    connected && !hasPlayer
  }

  /**
   * The "Enter War" button and the Arsenal link are never offered together: for a
   * connected wallet, exactly one of them is shown.
   */
  lemma EnterWarReplacesArsenal(connected: bool, hasPlayer: bool, publicKey: Option<string>,
                                isDevWallet: string -> bool)
    ensures ShowsEnterWar(connected, hasPlayer) ==> NavItems[1] !in VisibleNavItems(hasPlayer, publicKey, isDevWallet)
    ensures connected ==>
      (ShowsEnterWar(connected, hasPlayer) <==> NavItems[1] !in VisibleNavItems(hasPlayer, publicKey, isDevWallet))
  {
    VisibleNavItemsExactly(hasPlayer, publicKey, isDevWallet);
    assert NavItems[1].id != NavItems[0].id && NavItems[1].id != NavItems[2].id;
    assert NavItems[1].id != NavItems[3].id && NavItems[1].id != NavItems[4].id;
  }
}
