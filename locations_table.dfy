/**
 * The list logic of components/locations-table.tsx: the search filter over
 * location codes, the local removal after a delete, and which of the count,
 * the rows or the "no results" row the table shows.
 */
module LocationsTable {
  import opened JsValues
  import opened Seqs
  import opened LocationStore

  /** ASCII lower-casing of one character. */
  function LowerChar(c: char): char {
    if 'A' <= c <= 'Z' then (c as int + 32) as char else c
  }

  function Lower(s: string): string {
    seq(|s|, i requires 0 <= i < |s| => LowerChar(s[i]))
  }

  /** `s` begins with `p`. */
  predicate StartsWith(s: string, p: string) {
    |p| <= |s| && s[..|p|] == p
  }

  /** `sub` occurs in `s` starting at position `i`. */
  predicate OccursAt(s: string, sub: string, i: nat) {
    i + |sub| <= |s| && s[i..i + |sub|] == sub
  }

  /** `s.includes(sub)`: `sub` occurs in `s` at some position. */
  predicate Includes(s: string, sub: string)
    ensures Includes(s, sub) <==> exists i: nat :: OccursAt(s, sub, i)
    decreases |s|
  {
    var here := StartsWith(s, sub);
    var later := s != [] && Includes(s[1..], sub);
    assert here ==> OccursAt(s, sub, 0);
    assert later ==> exists j: nat :: OccursAt(s[1..], sub, j);
    assert forall j: nat :: s != [] && OccursAt(s[1..], sub, j) ==> OccursAt(s, sub, j + 1);
    assert forall i: nat :: i > 0 && OccursAt(s, sub, i) ==> OccursAt(s[1..], sub, i - 1);
    here || later
  }

  /** `String(id)`: the text of an id, "undefined" when it is missing. */
  function IdText(id: JsValue): string {
    match id
    case Undefined => "undefined"
    case Str(t) => t
  }

  /** Whether a location's code contains the filter, ignoring letter case. */
  predicate Matches(loc: Location, filter: string)
    ensures filter == "" ==> Matches(loc, filter)
    ensures Matches(loc, filter) ==> |filter| <= |IdText(loc.id)|
  {
    assert OccursAt(Lower(IdText(loc.id)), Lower(""), 0);
    Includes(Lower(IdText(loc.id)), Lower(filter))
  }

  /** The locations the search box lets through, in their original order. */
  function Filtered(locations: seq<Location>, filter: string): (r: seq<Location>)
    ensures forall l :: l in r <==> l in locations && Matches(l, filter)
    ensures forall l :: multiset(r)[l] == if Matches(l, filter) then multiset(locations)[l] else 0
    ensures IsSubsequence(r, locations)
    ensures |r| <= |locations|
  {
    if locations == [] then []
    else
      var rest := Filtered(locations[1..], filter);
      assert locations == [locations[0]] + locations[1..];
      if Matches(locations[0], filter) then
        ConsSubsequence(locations[0], rest, locations[1..]);
        [locations[0]] + rest
      else
        SkipSubsequence(locations[0], rest, locations[1..]);
        rest
  }

  /** An empty filter lets every location through. */
  lemma {:induction false} EmptyFilterKeepsAll(locations: seq<Location>)
    ensures Filtered(locations, "") == locations
  {
    if locations != [] {
      assert StartsWith(Lower(IdText(locations[0].id)), Lower(""));
      EmptyFilterKeepsAll(locations[1..]);
    }
  }

  /** Filters that differ only in letter case let the same locations through. */
  lemma {:induction false} FilterIgnoresCase(locations: seq<Location>, f: string, g: string)
    requires |f| == |g| && forall i :: 0 <= i < |f| ==> LowerChar(f[i]) == LowerChar(g[i])
    ensures Filtered(locations, f) == Filtered(locations, g)
  {
    assert Lower(f) == Lower(g);
    if locations != [] {
      FilterIgnoresCase(locations[1..], f, g);
    }
  }

  /** The list kept after deleting `id`: every location with that code dropped, the others in order. */
  function AfterDelete(locations: seq<Location>, id: string): (r: seq<Location>)
    ensures forall i :: 0 <= i < |r| ==> r[i].id != Str(id)
    ensures forall l :: l in r <==> l in locations && l.id != Str(id)
    ensures forall l :: multiset(r)[l] == if l.id != Str(id) then multiset(locations)[l] else 0
    ensures IsSubsequence(r, locations)
    ensures |r| == |locations| - CountId(locations, Str(id))
  {
    Without(locations, Str(id))
  }

  /** The body of the table: the "no results" row, or one row per location. */
  datatype TableBody = NoResultsRow | Rows(rows: seq<Location>)

  /** The card shown: the loading notice, or the list card with its count and body. */
  datatype View = LoadingCard | ListCard(count: nat, body: TableBody)

  /** What the table shows for the current list, filter and loading flag. */
  function Render(locations: seq<Location>, filter: string, loading: bool): (v: View)
    ensures v.LoadingCard? <==> loading
    ensures v.ListCard? ==> v.count == |Filtered(locations, filter)| <= |locations|
    ensures v.ListCard? ==>
      (v.body.NoResultsRow? <==> forall l :: l in locations ==> !Matches(l, filter))
    ensures v.ListCard? ==> (v.body.NoResultsRow? <==> v.count == 0)
    ensures v.ListCard? && v.body.Rows? ==> v.body.rows == Filtered(locations, filter)
  {
    if loading then LoadingCard
    else
      var shown := Filtered(locations, filter);
      assert shown != [] ==> shown[0] in shown;
      ListCard(|shown|, if |shown| == 0 then NoResultsRow else Rows(shown))
  }
}
