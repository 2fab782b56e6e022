/**
 * The icon chooser of app/components/IconPicker.tsx: display names derived
 * from the icon set's camel-case keys, a search capped at twenty results
 * and the lookup of the chosen icon.  The icon set itself is an input.
 */
module IconPicker {
  import opened Prelude
  import opened JsText

  /** An entry of `iconList`. */
  datatype Icon = Icon(name: string, id: string, path: string)

  /** `key.replace(/^mdi/, "")`: one leading `mdi` removed. */
  function StripMdi(key: string): string {
    if "mdi" <= key then key[3..] else key
  }

  /** `s.replace(/([A-Z])/g, " $1")`: a space before every upper-case letter. */
  function SpaceBeforeUpper(s: string): (r: string)
    ensures |r| >= |s|
  {
    if s == [] then []
    else (if IsUpper(s[0]) then [' ', s[0]] else [s[0]]) + SpaceBeforeUpper(s[1..])
  }

  /** The display name of an icon key. */
  function DisplayName(key: string): string {
    Trim(SpaceBeforeUpper(StripMdi(key)))
  }

  /** `s` with its spaces removed. */
  function Unspaced(s: string): string {
    if s == [] then [] else (if s[0] == ' ' then [] else [s[0]]) + Unspaced(s[1..])
  }

  lemma {:induction false} UnspacedAppend(a: string, b: string)
    ensures Unspaced(a + b) == Unspaced(a) + Unspaced(b)
  {
    if a != [] {
      assert (a + b)[1..] == a[1..] + b;
      UnspacedAppend(a[1..], b);
    } else {
      assert a + b == b;
    }
  }

  /** Only white space that is a plain space. */
  predicate OnlySpaces(s: string) {
    forall i :: 0 <= i < |s| ==> IsWhiteSpace(s[i]) ==> s[i] == ' '
  }

  /** The spaces the replacement inserts are its only white space. */
  lemma {:induction false} SpaceBeforeUpperSpaces(s: string)
    requires forall i :: 0 <= i < |s| ==> !IsWhiteSpace(s[i])
    ensures OnlySpaces(SpaceBeforeUpper(s))
    ensures Unspaced(SpaceBeforeUpper(s)) == s
  {
    if s != [] {
      SpaceBeforeUpperSpaces(s[1..]);
      var head: string := if IsUpper(s[0]) then [' ', s[0]] else [s[0]];
      var tail := SpaceBeforeUpper(s[1..]);
      assert SpaceBeforeUpper(s) == head + tail;
      UnspacedAppend(head, tail);
      assert Unspaced(head) == [s[0]] by {
        if IsUpper(s[0]) {
          assert head[1..] == [s[0]];
          assert [s[0]][1..] == [];
        } else {
          assert head[1..] == [];
        }
      }
      assert [s[0]] + s[1..] == s;
      forall i | 0 <= i < |head + tail| && IsWhiteSpace((head + tail)[i])
        ensures (head + tail)[i] == ' '
      {
        if i >= |head| {
          assert (head + tail)[i] == tail[i - |head|];
        }
      }
    }
  }

  /** Leading white space that is all plain spaces spells nothing. */
  lemma {:induction false} TrimStartUnspaced(t: string)
    requires OnlySpaces(t)
    ensures OnlySpaces(TrimStart(t))
    ensures Unspaced(TrimStart(t)) == Unspaced(t)
  {
    if t != [] && IsWhiteSpace(t[0]) {
      assert t[0] == ' ';
      assert OnlySpaces(t[1..]) by {
        forall i | 0 <= i < |t[1..]| ensures IsWhiteSpace(t[1..][i]) ==> t[1..][i] == ' ' {
          assert t[1..][i] == t[i + 1];
        }
      }
      TrimStartUnspaced(t[1..]);
    }
  }

  /** Trailing white space that is all plain spaces spells nothing. */
  lemma {:induction false} TrimEndUnspaced(t: string)
    requires OnlySpaces(t)
    ensures Unspaced(TrimEnd(t)) == Unspaced(t)
  {
    if t != [] && IsWhiteSpace(t[|t| - 1]) {
      var front := t[..|t| - 1];
      assert t[|t| - 1] == ' ';
      assert OnlySpaces(front) by {
        forall i | 0 <= i < |front| ensures IsWhiteSpace(front[i]) ==> front[i] == ' ' {
          assert front[i] == t[i];
        }
      }
      TrimEndUnspaced(front);
      assert t == front + [' '];
      UnspacedAppend(front, [' ']);
      assert Unspaced([' ']) == [];
      assert Unspaced(front) + [] == Unspaced(front);
    }
  }

  /** Trimming a text whose white space is all plain spaces removes only spaces. */
  lemma TrimUnspaced(t: string)
    requires OnlySpaces(t)
    ensures Unspaced(Trim(t)) == Unspaced(t)
  {
    TrimStartUnspaced(t);
    TrimEndUnspaced(TrimStart(t));
  }

  /**
   * The display name is the key without its `mdi` prefix, split into words:
   * removing the spaces gives that key back, for keys without white space.
   */
  lemma DisplayNameSpellsKey(key: string)
    requires forall i :: 0 <= i < |key| ==> !IsWhiteSpace(key[i])
    ensures Unspaced(DisplayName(key)) == StripMdi(key)
  {
    var s := StripMdi(key);
    assert forall i :: 0 <= i < |s| ==> !IsWhiteSpace(s[i]) by {
      if "mdi" <= key {
        assert forall i :: 0 <= i < |s| ==> s[i] == key[i + 3];
      }
    }
    SpaceBeforeUpperSpaces(s);
    TrimUnspaced(SpaceBeforeUpper(s));
  }

  /** An `iconList` entry: the display name, the key itself as id, and the path. */
  function IconOf(key: string, path: string): (icon: Icon)
    ensures icon.id == key && icon.path == path
  {
    Icon(DisplayName(key), key, path)
  }

  /** `iconList`, from the icon set's key and path pairs in order. */
  function IconList(entries: seq<(string, string)>): (r: seq<Icon>)
    ensures |r| == |entries|
    ensures forall k :: 0 <= k < |r| ==> r[k].id == entries[k].0 && r[k].path == entries[k].1
  {
    seq(|entries|, k requires 0 <= k < |entries| => IconOf(entries[k].0, entries[k].1))
  }

  /** The icons whose name contains the search, ignoring case, in list order. */
  function Matching(icons: seq<Icon>, search: string): (r: seq<Icon>)
    ensures IsSubsequence(r, icons)
    ensures forall x :: x in r <==> x in icons && MatchesSearch(x.name, search)
    ensures forall x :: multiset(r)[x] == if MatchesSearch(x.name, search) then multiset(icons)[x] else 0
  {
    if icons == [] then []
    else
      var rest := Matching(icons[1..], search);
      assert forall x :: x in icons <==> x == icons[0] || x in icons[1..];
      assert icons == [icons[0]] + icons[1..];
      if MatchesSearch(icons[0].name, search) then
        assert ([icons[0]] + rest)[1..] == rest;
        [icons[0]] + rest
      else rest
  }

  /** The most results the picker shows. */
  const MaxResults := 20

  /** `slice(0, 20)`. */
  function FirstResults(s: seq<Icon>): seq<Icon> {
    if |s| <= MaxResults then s else s[..MaxResults]
  }

  /** The first results of a subsequence are a subsequence, taken from it. */
  lemma FirstResultsOf(s: seq<Icon>, icons: seq<Icon>)
    requires IsSubsequence(s, icons)
    ensures IsSubsequence(FirstResults(s), icons)
    ensures forall x :: x in FirstResults(s) ==> x in s
  {
    if |s| > MaxResults {
      SubsequencePrefix(s, icons, MaxResults);
      assert forall x :: x in s[..MaxResults] ==> x in s;
    }
  }

  /** `filteredIcons`: the first twenty matches for a non-empty search, else the first twenty icons. */
  function FilteredIcons(icons: seq<Icon>, search: string): (r: seq<Icon>)
    ensures |r| <= MaxResults
    ensures IsSubsequence(r, icons)
    ensures forall x :: x in r ==> MatchesSearch(x.name, search)
    ensures |r| < MaxResults ==> forall x :: x in icons && MatchesSearch(x.name, search) ==> x in r
    ensures search == "" ==> r == FirstResults(icons)
  {
    if search != "" then
      var m := Matching(icons, search);
      FirstResultsOf(m, icons);
      FirstResults(m)
    else
      forall x | x in icons ensures MatchesSearch(x.name, search) {
        EmptySearchMatches(x.name);
      }
      PrefixIsSubsequence(icons, |icons|);
      assert icons[..|icons|] == icons;
      FirstResultsOf(icons, icons);
      FirstResults(icons)
  }

  /** The empty-search branch shows what filtering with the empty term would. */
  lemma {:induction false} MatchingEmpty(icons: seq<Icon>)
    ensures Matching(icons, "") == icons
  {
    if icons != [] {
      MatchingEmpty(icons[1..]);
      EmptySearchMatches(icons[0].name);
      assert [icons[0]] + icons[1..] == icons;
    }
  }

  /** Whatever the search, the results are the first twenty matches. */
  lemma FilteredIsFirstMatches(icons: seq<Icon>, search: string)
    ensures FilteredIcons(icons, search) == FirstResults(Matching(icons, search))
  {
    if search == "" {
      MatchingEmpty(icons);
    }
  }

  /** `iconList.find((icon) => icon.id === id)`: the first icon with that id. */
  function FindIcon(icons: seq<Icon>, id: string): (r: Option<Icon>)
    ensures r.None? <==> forall x :: x in icons ==> x.id != id
    ensures r.Some? ==> exists k :: 0 <= k < |icons| && icons[k] == r.value && r.value.id == id
                                    && forall j :: 0 <= j < k ==> icons[j].id != id
  {
    if icons == [] then None
    else if icons[0].id == id then Some(icons[0])
    else
      var rest := FindIcon(icons[1..], id);
      assert forall x :: x in icons <==> x == icons[0] || x in icons[1..];
      if rest.Some? then
        var k :| 0 <= k < |icons[1..]| && icons[1..][k] == rest.value && rest.value.id == id
                 && forall j :: 0 <= j < k ==> icons[1..][j].id != id;
        assert icons[k + 1] == rest.value && forall j :: 0 <= j < k + 1 ==> icons[j].id != id;
        rest
      else rest
  }

  /** `selectedIcon`: nothing for a missing or empty value, else the first icon with that id. */
  function SelectedIcon(icons: seq<Icon>, value: Option<string>): (r: Option<Icon>)
    ensures value.None? || value.value == "" ==> r.None?
    ensures value.Some? && value.value != "" ==> r == FindIcon(icons, value.value)
  {
    if value.Some? && value.value != "" then FindIcon(icons, value.value) else None
  }

  /** An id some icon has selects an icon with that id. */
  lemma SelectedIconOfId(icons: seq<Icon>, k: nat)
    requires k < |icons| && icons[k].id != ""
    ensures SelectedIcon(icons, Some(icons[k].id)).Some?
    ensures SelectedIcon(icons, Some(icons[k].id)).value.id == icons[k].id
  {
    assert icons[k] in icons;
  }

  /** A key from the icon set is found again under its own id. */
  lemma SelectedIconOfKey(entries: seq<(string, string)>, k: nat)
    requires k < |entries| && entries[k].0 != ""
    ensures SelectedIcon(IconList(entries), Some(entries[k].0)).Some?
    ensures SelectedIcon(IconList(entries), Some(entries[k].0)).value.id == entries[k].0
  {
    SelectedIconOfId(IconList(entries), k);
  }
}
