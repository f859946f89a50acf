/** The sidebar: which navigation entry is highlighted for a pathname
    (src/components/layout/sidebar-nav.tsx) and the user block's initials
    and credit label (src/components/layout/sidebar-user.tsx). */
module Sidebar {
  import opened Common
  import opened Text

  datatype NavItem = NavItem(title: string, href: string)

  const NavItems := [NavItem("Dashboard", "/dashboard"), NavItem("Tools", "/tools"), NavItem("History", "/history")]
  const SettingsItems := [NavItem("Settings", "/settings")]

  // ----- active entry ------------------------------------------------------------------

  /** A main entry is active on its own path and on every path below it:
      the path continues after `href` only with a '/'. */
  function IsActive(pathname: string, href: string): (b: bool)
    ensures b <==> pathname == href
                   || (|pathname| > |href| && pathname[..|href|] == href && pathname[|href|] == '/')
  {
    var below := href + "/";
    assert |pathname| > |href| && pathname[..|href|] == href && pathname[|href|] == '/' ==>
             pathname[..|below|] == below;
    pathname == href || StartsWith(pathname, below)
  }

  /** The settings entry is active only on its own path: it is the main
      rule with the paths below left out. */
  function IsSettingsActive(pathname: string, href: string): (b: bool)
    ensures b ==> IsActive(pathname, href)
    ensures b <==> IsActive(pathname, href) && |pathname| <= |href|
  {
    pathname == href
  }

  /** Any path below an entry activates it. */
  lemma SubpathActivates(href: string, rest: string)
    ensures IsActive(href + "/" + rest, href)
    ensures !IsSettingsActive(href + "/" + rest, href)
  {
    var p := href + "/" + rest;
    assert p[..|href|] == href && p[|href|] == '/';
  }

  /** A path that merely shares the entry's prefix does not. */
  lemma SiblingDoesNotActivate(href: string, c: char, rest: string)
    requires c != '/'
    ensures !IsActive(href + [c] + rest, href)
  {
    var p := href + [c] + rest;
    assert p[|href|] == c;
  }

  lemma ToolsPaths()
    ensures IsActive("/tools/abc", "/tools")
    ensures !IsActive("/toolsx", "/tools")
  {
    SubpathActivates("/tools", "abc");
    assert "/tools/abc" == "/tools" + "/" + "abc";
    SiblingDoesNotActivate("/tools", 'x', "");
    assert "/toolsx" == "/tools" + ['x'] + "";
  }

  /** The rendered menu: the three main entries in order, then settings,
      each with its active flag. */
  function Menu(pathname: string): (r: seq<(NavItem, bool)>)
    ensures |r| == 4
    ensures r[0].0.title == "Dashboard" && r[1].0.title == "Tools" && r[2].0.title == "History"
    ensures r[3].0.title == "Settings"
    ensures forall i :: 0 <= i < 3 ==> r[i].1 == IsActive(pathname, r[i].0.href)
    ensures r[3].1 == IsSettingsActive(pathname, r[3].0.href)
  {
    var main := seq(|NavItems|, i requires 0 <= i < |NavItems| => (NavItems[i], IsActive(pathname, NavItems[i].href)));
    main + [(SettingsItems[0], IsSettingsActive(pathname, SettingsItems[0].href))]
  }

  lemma ActiveSharesSecondChar(pathname: string, href: string)
    requires |href| >= 2 && IsActive(pathname, href)
    ensures |pathname| >= 2 && pathname[1] == href[1]
  {
    assert pathname[..|href|][1] == pathname[1];
  }

  /** Two entries whose paths differ in their first letter are never
      active together. */
  lemma {:induction false} ExclusiveEntries(pathname: string, a: string, b: string)
    requires |a| >= 2 && |b| >= 2 && a[1] != b[1]
    ensures !(IsActive(pathname, a) && IsActive(pathname, b))
  {
    if IsActive(pathname, a) && IsActive(pathname, b) {
      ActiveSharesSecondChar(pathname, a);
      ActiveSharesSecondChar(pathname, b);
    }
  }

  /** No path highlights two entries of the menu. */
  lemma AtMostOneActive(pathname: string, i: int, j: int)
    requires 0 <= i < 4 && 0 <= j < 4
    requires Menu(pathname)[i].1 && Menu(pathname)[j].1
    ensures i == j
  {
  }

  // ----- initials ----------------------------------------------------------------------

  /** `words.map(n => n[0]).join('')`: the first character of each word;
      an empty word gives `undefined`, which joins as nothing. */
  function Heads(words: seq<string>): (r: string)
    ensures |r| <= |words|
  {
    if |words| == 0 then ""
    else (if words[0] == "" then "" else [words[0][0]]) + Heads(words[1..])
  }

  function NonEmpty(): string -> bool {
    (w: string) => w != ""
  }

  /** The heads are exactly the first characters of the non-empty words,
      in order. */
  lemma {:induction false} HeadsOfWords(words: seq<string>)
    ensures var ws := Filter(words, NonEmpty());
            && |Heads(words)| == |ws|
            && forall k :: 0 <= k < |ws| ==> |ws[k]| > 0 && Heads(words)[k] == ws[k][0]
  {
    if |words| > 0 {
      HeadsOfWords(words[1..]);
    }
  }

  /** `s.slice(0, 2)` */
  function Take2(s: string): (r: string)
    ensures |r| == if |s| < 2 then |s| else 2
    ensures r == s[..|r|]
  {
    JsSlice(s, 0, 2)
  }

  /** `getInitials`: with a non-empty name, the upper-cased heads of its
      space-separated words; otherwise the upper-cased start of the
      e-mail address. At most two characters either way, and none of
      them a lower-case ASCII letter. */
  function Initials(name: Option<string>, email: string): (r: string)
    ensures |r| <= 2
    ensures forall k :: 0 <= k < |r| ==> !IsLowerAscii(r[k])
    ensures name.None? || name == Some("") ==> r == ToUpper(Take2(email))
    ensures name.Some? && name.value != "" ==> r == Take2(ToUpper(Heads(Split(name.value, ' '))))
  {
    if name.Some? && name.value != "" then Take2(ToUpper(Heads(Split(name.value, ' '))))
    else
      var t := Take2(email);
      assert ToUpper(Take2(email)) == Take2(ToUpper(email));
      ToUpper(t)
  }

  /** With a name, the k-th initial is the upper-cased first character of
      the k-th non-empty word. */
  lemma InitialsAreWordHeads(name: string, email: string, k: int)
    requires name != ""
    requires 0 <= k < |Initials(Some(name), email)|
    ensures var ws := Filter(Split(name, ' '), NonEmpty());
            k < |ws| && |ws[k]| > 0 && Initials(Some(name), email)[k] == UpperChar(ws[k][0])
  {
    HeadsOfWords(Split(name, ' '));
  }

  /** A first and a last name give their two capitals. */
  lemma FirstAndLast(first: string, last: string, email: string)
    requires first != "" && last != "" && ' ' !in first && ' ' !in last
    ensures Initials(Some(first + " " + last), email) == [UpperChar(first[0]), UpperChar(last[0])]
  {
    assert Join([first, last], ' ') == first + " " + last by {
      assert Join([first, last], ' ') == first + [' '] + Join([last], ' ');
    }
    SplitJoin([first, last], ' ');
    var words := Split(first + " " + last, ' ');
    assert words == [first, last];
    assert Heads(words) == [first[0]] + Heads([last]);
    assert Heads([last]) == [last[0]] + Heads([]);
  }

  // ----- credit label ------------------------------------------------------------------

  /** `formatCredits` below 1000: the plain decimal string, which reads
      back as the number. */
  function FormatCredits(credits: int): (r: string)
    requires credits < 1000
    ensures credits >= 0 ==> AllDigits(r) && |r| <= 3 && ParseDigits(r) == credits
    ensures credits < 0 ==> |r| >= 2 && r[0] == '-'
  {
    if credits >= 0 then
      ParseNatToString(credits);
      IntToString(credits)
    else IntToString(credits)
  }
}
