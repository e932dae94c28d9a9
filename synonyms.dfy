/**
 * The synonym dictionary: `synonym_map` (synonym -> canonical word) and
 * `canonical_map` (canonical word -> ordered synonym list).
 *
 * `Dict` is the value of the two maps, used for the undo snapshots and as the
 * specification of `SynonymDictionary`, whose methods update the two map fields
 * in place. The two maps are NOT kept mutually consistent by the program:
 * `AddSynonym` leaves a stale copy in the previous owner's list and `AddEntry`
 * leaves earlier synonyms of the canonical word mapped to it. The one invariant
 * that does hold is `RangeClosed`: every canonical word a synonym points to is a
 * key of `canonical_map`.
 */
module Synonyms {
  import opened Wrappers
  import opened SynonymFormat

  type Word = string

  /** `xs` with every occurrence of `x` removed, order kept (`erase(remove(...), end)`). */
  function Without(xs: seq<Word>, x: Word): (r: seq<Word>)
    ensures multiset(r) == multiset(xs)[x := 0]
    ensures |r| <= |xs|
    ensures |xs| == 1 ==> r == (if xs[0] == x then [] else xs)
  {
    if xs == [] then []
    else
      var init, last := xs[..|xs| - 1], xs[|xs| - 1];
      assert xs == init + [last];
      if last == x then Without(init, x) else Without(init, x) + [last]
  }

  /** Removal works element by element, so the words that stay keep their relative order. */
  lemma {:induction false} WithoutAppend(a: seq<Word>, b: seq<Word>, x: Word)
    ensures Without(a + b, x) == Without(a, x) + Without(b, x)
    decreases |b|
  {
    if b == [] {
      assert a + b == a;
    } else {
      var init, last := b[..|b| - 1], b[|b| - 1];
      assert a + b == (a + init) + [last];
      assert (a + b)[..|a + b| - 1] == a + init;
      WithoutAppend(a, init, x);
    }
  }

  datatype Dict = Dict(synonymMap: map<Word, Word>, canonicalMap: map<Word, seq<Word>>)
  {
    /** `getCanonicalWord`: the mapped canonical word, or the word itself when unknown. */
    function Resolve(w: Word): (r: Word)
      ensures w !in synonymMap ==> r == w
      ensures RangeClosed() && w in synonymMap ==> r in canonicalMap
    {
      if w in synonymMap then synonymMap[w] else w
    }

    /** `s` is a key of `synonym_map` whose value is `c`. */
    predicate MapsTo(s: Word, c: Word) {
      s in synonymMap && synonymMap[s] == c
    }

    /** `canonical_map[c]` as `operator[]` sees it: the list, or a fresh empty one. */
    function ListOf(c: Word): seq<Word> {
      if c in canonicalMap then canonicalMap[c] else []
    }

    /** Every canonical word in the range of `synonym_map` is a key of `canonical_map`. */
    predicate RangeClosed() {
      forall s :: s in synonymMap ==> synonymMap[s] in canonicalMap
    }

    /** `w` has the same `synonym_map` entry (or absence of one) here as in `other`. */
    predicate SameSynonym(other: Dict, w: Word) {
      (w in synonymMap <==> w in other.synonymMap) &&
      (w in synonymMap ==> synonymMap[w] == other.synonymMap[w])
    }

    /** `c` has the same `canonical_map` entry (or absence of one) here as in `other`. */
    predicate SameList(other: Dict, c: Word) {
      (c in canonicalMap <==> c in other.canonicalMap) &&
      (c in canonicalMap ==> canonicalMap[c] == other.canonicalMap[c])
    }

    /**
     * `addEntry(c, syns)`: every listed synonym now maps to `c` and `c`'s list is
     * exactly `syns`; every other synonym and every other list is untouched, so
     * earlier synonyms of `c` that are not listed still map to `c`.
     */
    function AddEntry(c: Word, syns: seq<Word>): (r: Dict)
      ensures forall s :: s in syns ==> r.MapsTo(s, c)
      ensures forall w :: w !in syns ==> r.SameSynonym(this, w)
      ensures c in r.canonicalMap && r.canonicalMap[c] == syns
      ensures forall c' :: c' != c ==> r.SameList(this, c')
      ensures RangeClosed() ==> r.RangeClosed()
    {
      Dict(synonymMap + map s | s in syns :: c, canonicalMap[c := syns])
    }

    /**
     * `addSynonym(c, s)`: `s` maps to `c` and is appended to `c`'s list (created
     * empty if absent); no other list changes, so a previous owner keeps `s`.
     */
    function AddSynonym(c: Word, s: Word): (r: Dict)
      ensures r.MapsTo(s, c)
      ensures c in r.canonicalMap && r.canonicalMap[c] == ListOf(c) + [s]
      ensures forall w :: w != s ==> r.SameSynonym(this, w)
      ensures forall c' :: c' != c ==> r.SameList(this, c')
      ensures RangeClosed() ==> r.RangeClosed()
    {
      Dict(synonymMap[s := c], canonicalMap[c := ListOf(c) + [s]])
    }

    /**
     * `removeSynonym(c, s)`: nothing changes unless `s` maps to `c`; otherwise `s`
     * leaves `synonym_map` (and so resolves to itself) and every occurrence of
     * `s` leaves `c`'s list; all other entries are untouched.
     */
    function RemoveSynonym(c: Word, s: Word): (r: Dict)
      ensures !MapsTo(s, c) ==> r == this
      ensures MapsTo(s, c) ==> s !in r.synonymMap && r.Resolve(s) == s
      ensures MapsTo(s, c) ==> c in r.canonicalMap && r.canonicalMap[c] == Without(ListOf(c), s)
      ensures forall w :: w != s ==> r.SameSynonym(this, w)
      ensures forall c' :: c' != c ==> r.SameList(this, c')
      ensures r.synonymMap.Keys <= synonymMap.Keys
      ensures RangeClosed() ==> r.RangeClosed()
    {
      if MapsTo(s, c) then Dict(synonymMap - {s}, canonicalMap[c := Without(ListOf(c), s)]) else this
    }

    /** The effect of `parseLine(line)`: the parsed entry, added as by `addEntry`. */
    function LoadLine(line: string): (r: Dict)
      ensures ParseEntry(line).None? ==> r == this
      ensures ParseEntry(line).Some? ==>
        var e := ParseEntry(line).value;
        e.canonical in r.canonicalMap && r.canonicalMap[e.canonical] == e.synonyms
      ensures RangeClosed() ==> r.RangeClosed()
    {
      match ParseEntry(line)
      case None => this
      case Some(e) => AddEntry(e.canonical, e.synonyms)
    }
  }

  /** The empty dictionary, as default-constructed. */
  const Empty := Dict(map[], map[])

  /**
   * A synonym moved to a new canonical word stays in its old owner's list:
   * after `a{s}` and `addSynonym(b, s)`, `s` resolves to `b` but is still listed under `a`.
   */
  lemma AddSynonymLeavesStaleCopy(a: Word, b: Word, s: Word)
    requires a != b
    ensures var r := Empty.AddEntry(a, [s]).AddSynonym(b, s);
      r.Resolve(s) == b && r.ListOf(a) == [s]
  {
  }

  /** Removing a synonym right after adding it makes it resolve to itself again. */
  lemma AddThenRemoveSynonym(d: Dict, c: Word, s: Word)
    ensures d.AddSynonym(c, s).RemoveSynonym(c, s).Resolve(s) == s
  {
  }

  /** `m` with each word of `ws` in turn mapped to `c`, as a loop of `m[w] = c` does it. */
  function MapEach(m: map<Word, Word>, ws: seq<Word>, c: Word): map<Word, Word> {
    if ws == [] then m else MapEach(m, ws[..|ws| - 1], c)[ws[|ws| - 1] := c]
  }

  /** Mapping the words one by one gives the map `addEntry` is specified by. */
  lemma {:induction false} MapEachAll(m: map<Word, Word>, ws: seq<Word>, c: Word)
    ensures MapEach(m, ws, c) == m + map s | s in ws :: c
    decreases |ws|
  {
    if ws != [] {
      var init, w := ws[..|ws| - 1], ws[|ws| - 1];
      MapEachAll(m, init, c);
      assert ws == init + [w];
      assert (m + map s | s in init :: c)[w := c] == m + map s | s in ws :: c;
    }
  }

  /** One more word of `ws` mapped: the step of the loops that map a list of synonyms. */
  lemma MapEachPrefix(m: map<Word, Word>, ws: seq<Word>, i: nat, c: Word)
    requires i < |ws|
    ensures ws[..i + 1] == ws[..i] + [ws[i]]
    ensures MapEach(m, ws[..i + 1], c) == MapEach(m, ws[..i], c)[ws[i] := c]
  {
    assert ws[..i + 1][..i] == ws[..i];
  }

  /** The in-place dictionary of the program, with its two hash maps as fields. */
  class SynonymDictionary {
    var synonymMap: map<Word, Word>
    var canonicalMap: map<Word, seq<Word>>

    function State(): Dict
      reads this
    {
      Dict(synonymMap, canonicalMap)
    }

    /** The invariant the constructor sets up and every public operation keeps. */
    predicate Valid()
      reads this
    {
      State().RangeClosed()
    }

    constructor ()
      ensures State() == Empty && Valid()
    {
      synonymMap := map[];
      canonicalMap := map[];
    }

    /** `getCanonicalWord`. */
    function GetCanonicalWord(w: Word): (r: Word)
      reads this
      ensures r == State().Resolve(w)
    {
      if w in synonymMap then synonymMap[w] else w
    }

    /** `dict = currentState`: copy-assignment from a snapshot. */
    method Restore(saved: Dict)
      modifies this
      ensures State() == saved
      ensures Valid() <==> saved.RangeClosed()
    {
      synonymMap := saved.synonymMap;
      canonicalMap := saved.canonicalMap;
    }

    method AddEntry(c: Word, syns: seq<Word>)
      modifies this
      ensures State() == old(State()).AddEntry(c, syns)
      ensures old(Valid()) ==> Valid()
    {
      var i := 0;
      while i < |syns|
        invariant 0 <= i <= |syns|
        invariant synonymMap == MapEach(old(synonymMap), syns[..i], c)
        invariant canonicalMap == old(canonicalMap)
      {
        MapEachPrefix(old(synonymMap), syns, i, c);
        synonymMap := synonymMap[syns[i] := c];
        i := i + 1;
      }
      assert syns[..i] == syns;
      MapEachAll(old(synonymMap), syns, c);
      canonicalMap := canonicalMap[c := syns];
    }

    method AddSynonym(c: Word, s: Word)
      modifies this
      ensures State() == old(State()).AddSynonym(c, s)
      ensures old(Valid()) ==> Valid()
    {
      synonymMap := synonymMap[s := c];
      var list := if c in canonicalMap then canonicalMap[c] else [];
      canonicalMap := canonicalMap[c := list + [s]];
    }

    method RemoveSynonym(c: Word, s: Word)
      modifies this
      ensures State() == old(State()).RemoveSynonym(c, s)
      ensures old(Valid()) ==> Valid()
    {
      if s in synonymMap && synonymMap[s] == c {
        synonymMap := synonymMap - {s};
        var list := if c in canonicalMap then canonicalMap[c] else [];
        canonicalMap := canonicalMap[c := Without(list, s)];
      }
    }

    /**
     * `parseLine`: read the canonical word up to `{`, the list up to `}`, then
     * each `,`-separated piece, trimmed, is mapped to the canonical word and
     * appended to the new list, which replaces the canonical word's entry.
     */
    method ParseLine(line: string)
      modifies this
      ensures State() == old(State()).LoadLine(line)
      ensures old(Valid()) ==> Valid()
    {
      ghost var before := State();
      var open := IndexOf(line, '{');
      if open + 1 < |line| {
        var canonical := line[..open];
        var rest := line[open + 1..];
        var list := rest[..IndexOf(rest, '}')];
        var synonyms := MapPieces(canonical, Split(list, ','));
        assert ParseEntry(line) == Some(Entry(canonical, synonyms));
        assert State() == before.AddEntry(canonical, synonyms);
      } else {
        assert ParseEntry(line) == None;
      }
    }

    /**
     * The inner loop of `parseLine`: trim each piece, map it to `canonical`,
     * collect it; then the collected list becomes `canonical`'s entry.
     */
    method MapPieces(canonical: Word, pieces: seq<string>) returns (synonyms: seq<Word>)
      modifies this
      ensures synonyms == TrimAll(pieces)
      ensures State() == old(State()).AddEntry(canonical, synonyms)
      ensures old(Valid()) ==> Valid()
    {
      ghost var all := TrimAll(pieces);
      synonyms := [];
      var i := 0;
      while i < |pieces|
        invariant 0 <= i <= |pieces|
        invariant synonyms == all[..i]
        invariant synonymMap == MapEach(old(synonymMap), all[..i], canonical)
        invariant canonicalMap == old(canonicalMap)
      {
        var synonym := Trim(pieces[i]);
        MapEachPrefix(old(synonymMap), all, i, canonical);
        synonymMap := synonymMap[synonym := canonical];
        synonyms := synonyms + [synonym];
        i := i + 1;
      }
      assert all[..|pieces|] == all;
      MapEachAll(old(synonymMap), synonyms, canonical);
      canonicalMap := canonicalMap[canonical := synonyms];
    }

    /**
     * `loadFromFile` after the file is opened: every line parsed in order.
     */
    method LoadLines(lines: seq<string>)
      modifies this
      ensures State() == LoadAll(old(State()), lines)
      ensures old(Valid()) ==> Valid()
    {
      var i := 0;
      while i < |lines|
        invariant 0 <= i <= |lines|
        invariant State() == LoadAll(old(State()), lines[..i])
      {
        assert lines[..i + 1][..i] == lines[..i];
        ParseLine(lines[i]);
        i := i + 1;
      }
      assert lines[..i] == lines;
      if old(Valid()) {
        LoadAllRangeClosed(old(State()), lines);
      }
    }

    /**
     * `saveToFile` before writing: one line per `canonical_map` entry, in the
     * (unspecified) iteration order of the hash map.
     */
    method SaveLines() returns (lines: seq<string>)
      ensures |lines| == |canonicalMap|
      ensures forall c :: c in canonicalMap ==> EntryLine(c, canonicalMap[c]) in lines
      ensures forall l :: l in lines ==> exists c :: c in canonicalMap && l == EntryLine(c, canonicalMap[c])
    {
      lines := [];
      var remaining := canonicalMap.Keys;
      while remaining != {}
        invariant remaining <= canonicalMap.Keys
        invariant |lines| + |remaining| == |canonicalMap|
        invariant forall c :: c in canonicalMap && c !in remaining ==> EntryLine(c, canonicalMap[c]) in lines
        invariant forall l :: l in lines ==> exists c :: c in canonicalMap && l == EntryLine(c, canonicalMap[c])
        decreases |remaining|
      {
        var c :| c in remaining;
        var line := FormatEntry(c, canonicalMap[c]);
        lines := lines + [line];
        remaining := remaining - {c};
      }
    }
  }

  /** The dictionary after parsing `lines` in order, starting from `d`. */
  function LoadAll(d: Dict, lines: seq<string>): Dict
  {
    if lines == [] then d else LoadAll(d, lines[..|lines| - 1]).LoadLine(lines[|lines| - 1])
  }

  /** Loading keeps the invariant: the file parser never breaks `RangeClosed`. */
  lemma {:induction false} LoadAllRangeClosed(d: Dict, lines: seq<string>)
    requires d.RangeClosed()
    ensures LoadAll(d, lines).RangeClosed()
    decreases |lines|
  {
    if lines != [] {
      LoadAllRangeClosed(d, lines[..|lines| - 1]);
    }
  }
}
