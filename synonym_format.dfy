/**
 * The line format of the synonym dictionary file, `canonical{syn1, syn2, ...}`:
 * how `SynonymDictionary::parseLine` reads one line with `std::getline`,
 * how `saveToFile` writes one entry, and the round trip between the two.
 */
module SynonymFormat {
  import opened Wrappers

  /** One dictionary line: the canonical word and its synonyms in file order. */
  datatype Entry = Entry(canonical: string, synonyms: seq<string>)

  /** Position of the first `d` in `s`, or `|s|` when there is none. */
  function IndexOf(s: string, d: char): (i: nat)
    ensures i <= |s|
    ensures forall j :: 0 <= j < i ==> s[j] != d
    ensures i < |s| ==> s[i] == d
  {
    if s == [] || s[0] == d then 0 else 1 + IndexOf(s[1..], d)
  }

  /** `xs` joined with `sep` between consecutive elements. */
  function Join(xs: seq<string>, sep: string): string
  {
    if xs == [] then ""
    else if |xs| == 1 then xs[0]
    else xs[0] + sep + Join(xs[1..], sep)
  }

  /**
   * The pieces a loop `while (std::getline(stream, piece, d))` reads from `s`:
   * an empty string yields no piece, and a trailing delimiter does not yield an
   * empty last piece.
   */
  function Split(s: string, d: char): (pieces: seq<string>)
    ensures forall k, j :: 0 <= k < |pieces| && 0 <= j < |pieces[k]| ==> pieces[k][j] != d
    ensures s == [] <==> pieces == []
    decreases |s|
  {
    if s == [] then []
    else
      var i := IndexOf(s, d);
      if i == |s| then [s]
      else [s[..i]] + Split(s[i + 1..], d)
  }

  /**
   * Joining the pieces with the delimiter gives back the string, but for a
   * trailing delimiter, which the pieces do not record.
   */
  lemma {:induction false} SplitJoin(s: string, d: char)
    ensures s != [] && s[|s| - 1] == d ==> Join(Split(s, d), [d]) + [d] == s
    ensures s != [] && s[|s| - 1] != d ==> Join(Split(s, d), [d]) == s
    decreases |s|
  {
    if s != [] {
      var i := IndexOf(s, d);
      if i == |s| {
        assert Split(s, d) == [s];
      } else {
        var a, tail := s[..i], s[i + 1..];
        assert s == a + [d] + tail;
        SplitAt(a, tail, d);
        if tail == [] {
          assert Split(s, d) == [a];
        } else {
          SplitJoin(tail, d);
          JoinCons(a, Split(tail, d), [d]);
          assert s[|s| - 1] == tail[|tail| - 1];
          if tail[|tail| - 1] == d {
            assert Join(Split(s, d), [d]) + [d] == a + [d] + (Join(Split(tail, d), [d]) + [d]);
          } else {
            assert Join(Split(s, d), [d]) == a + [d] + Join(Split(tail, d), [d]);
          }
        }
      }
    }
  }

  /** Joining a non-empty list behind a first element puts one separator between them. */
  lemma JoinCons(x: string, xs: seq<string>, sep: string)
    requires xs != []
    ensures Join([x] + xs, sep) == x + sep + Join(xs, sep)
  {
    assert ([x] + xs)[1..] == xs;
  }

  /** The characters `parseLine` trims from both ends of a synonym: `" \t\n\r"`. */
  predicate IsTrimSpace(c: char) {
    c == ' ' || c == '\t' || c == '\n' || c == '\r'
  }

  /** Number of trim characters at the start of `s` (`find_first_not_of`, or all of it). */
  function LeadingSpace(s: string): (n: nat)
    ensures n <= |s|
    ensures forall i :: 0 <= i < n ==> IsTrimSpace(s[i])
    ensures n < |s| ==> !IsTrimSpace(s[n])
  {
    if s == [] || !IsTrimSpace(s[0]) then 0 else 1 + LeadingSpace(s[1..])
  }

  /** Number of trim characters at the end of `s` (everything after `find_last_not_of`). */
  function TrailingSpace(s: string): (n: nat)
    ensures n <= |s|
    ensures forall i :: |s| - n <= i < |s| ==> IsTrimSpace(s[i])
    ensures n < |s| ==> !IsTrimSpace(s[|s| - 1 - n])
  {
    if s == [] || !IsTrimSpace(s[|s| - 1]) then 0 else 1 + TrailingSpace(s[..|s| - 1])
  }

  /** A synonym after the two `erase` calls: leading, then trailing trim characters removed. */
  function Trim(s: string): (r: string)
    ensures r == [] || (!IsTrimSpace(r[0]) && !IsTrimSpace(r[|r| - 1]))
  {
    var t := s[LeadingSpace(s)..];
    t[..|t| - TrailingSpace(t)]
  }

  /** Trimming only removes characters: the result is a piece of the input. */
  lemma TrimKeeps(s: string)
    ensures forall i :: 0 <= i < |Trim(s)| ==> Trim(s)[i] in s
  {
    var n := LeadingSpace(s);
    var r := Trim(s);
    forall i | 0 <= i < |r|
      ensures r[i] in s
    {
      assert r[i] == s[n + i];
    }
  }

  function TrimAll(pieces: seq<string>): (r: seq<string>)
    ensures |r| == |pieces|
    ensures forall k :: 0 <= k < |r| ==> r[k] == Trim(pieces[k])
  {
    if pieces == [] then [] else [Trim(pieces[0])] + TrimAll(pieces[1..])
  }

  /**
   * `parseLine`: the canonical word is the untrimmed text before the first `{`;
   * the synonyms are the text after it up to the first `}` (or the end of the
   * line), split on `,`, each piece trimmed. A line without `{`, or with nothing
   * after the `{`, yields no entry.
   */
  function ParseEntry(line: string): (r: Option<Entry>)
    ensures r.Some? <==> IndexOf(line, '{') + 1 < |line|
  {
    var open := IndexOf(line, '{');
    if open + 1 >= |line| then None
    else
      var rest := line[open + 1..];
      var list := rest[..IndexOf(rest, '}')];
      Some(Entry(line[..open], TrimAll(Split(list, ','))))
  }

  /**
   * What a parsed entry looks like: the canonical word followed by `{` starts the
   * line and has no `{` of its own; every synonym is unpadded and free of `,` and `}`.
   */
  lemma ParsedEntryShape(line: string)
    requires ParseEntry(line).Some?
    ensures var e := ParseEntry(line).value;
      && e.canonical + "{" == line[..|e.canonical| + 1]
      && (forall j :: 0 <= j < |e.canonical| ==> e.canonical[j] != '{')
      && (forall k :: 0 <= k < |e.synonyms| ==> Unpadded(e.synonyms[k]))
      && (forall k, j :: 0 <= k < |e.synonyms| && 0 <= j < |e.synonyms[k]| ==>
            e.synonyms[k][j] != ',' && e.synonyms[k][j] != '}')
  {
    var open := IndexOf(line, '{');
    var rest := line[open + 1..];
    var list := rest[..IndexOf(rest, '}')];
    var pieces := Split(list, ',');
    var synonyms := TrimAll(pieces);
    assert line[..open] + "{" == line[..open + 1];
    forall k, j | 0 <= k < |synonyms| && 0 <= j < |synonyms[k]|
      ensures synonyms[k][j] != ',' && synonyms[k][j] != '}'
    {
      var c := synonyms[k][j];
      TrimKeeps(pieces[k]);
      assert c in pieces[k];
      SplitKeeps(list, ',', k, c);
      assert c in list;
    }
  }

  /** Every character of a piece comes from the split string. */
  lemma {:induction false} SplitKeeps(s: string, d: char, k: nat, c: char)
    requires k < |Split(s, d)| && c in Split(s, d)[k]
    ensures c in s
    decreases |s|
  {
    var i := IndexOf(s, d);
    if i < |s| {
      if k == 0 {
        var j :| 0 <= j < i && s[..i][j] == c;
        assert s[j] == c;
      } else {
        var t := s[i + 1..];
        SplitKeeps(t, d, k - 1, c);
        var j :| 0 <= j < |t| && t[j] == c;
        assert s[i + 1 + j] == c;
      }
    }
  }

  /** No trim character at either end (the empty string qualifies). */
  predicate Unpadded(w: string) {
    w == [] || (!IsTrimSpace(w[0]) && !IsTrimSpace(w[|w| - 1]))
  }

  /** The line `saveToFile` writes for one entry. */
  function EntryLine(canonical: string, synonyms: seq<string>): string {
    canonical + "{" + Join(synonyms, ", ") + "}"
  }

  /** `saveToFile`'s inner loop for one entry: each synonym, with ", " after every one but the last. */
  method FormatEntry(canonical: string, synonyms: seq<string>) returns (line: string)
    ensures line == EntryLine(canonical, synonyms)
  {
    line := canonical + "{";
    var i := 0;
    while i < |synonyms|
      invariant 0 <= i <= |synonyms|
      invariant line == canonical + "{" + Written(synonyms, i)
    {
      WrittenStep(synonyms, i);
      line := line + synonyms[i];
      if i < |synonyms| - 1 {
        line := line + ", ";
      }
      i := i + 1;
    }
    assert synonyms[..i] == synonyms;
    line := line + "}";
  }

  /** What the loop of `FormatEntry` has written after `i` synonyms. */
  ghost function Written(synonyms: seq<string>, i: nat): string
    requires i <= |synonyms|
  {
    Join(synonyms[..i], ", ") + (if 0 < i < |synonyms| then ", " else "")
  }

  /** One pass of that loop appends the synonym, and ", " unless it is the last. */
  lemma WrittenStep(synonyms: seq<string>, i: nat)
    requires i < |synonyms|
    ensures Written(synonyms, i + 1) == Written(synonyms, i) + synonyms[i] + (if i < |synonyms| - 1 then ", " else "")
  {
    JoinSnoc(synonyms[..i], synonyms[i], ", ");
    assert synonyms[..i + 1] == synonyms[..i] + [synonyms[i]];
  }

  lemma {:induction false} JoinSnoc(xs: seq<string>, x: string, sep: string)
    ensures Join(xs + [x], sep) == if xs == [] then x else Join(xs, sep) + sep + x
    decreases |xs|
  {
    if |xs| > 1 {
      assert (xs + [x])[1..] == xs[1..] + [x];
      JoinSnoc(xs[1..], x, sep);
    }
  }

  /** A synonym that survives a save and a reload unchanged. */
  predicate Storable(w: string) {
    |w| > 0 && Unpadded(w) && forall j :: 0 <= j < |w| ==> w[j] != ',' && w[j] != '}'
  }

  /**
   * Round trip of one entry: the line `saveToFile` writes for `canonical` and
   * `synonyms` is read back by `parseLine` as the same entry, provided the
   * canonical word has no `{` and every synonym is non-empty, unpadded and free
   * of `,` and `}`.
   */
  lemma ParseFormatRoundTrip(canonical: string, synonyms: seq<string>)
    requires forall j :: 0 <= j < |canonical| ==> canonical[j] != '{'
    requires forall k :: 0 <= k < |synonyms| ==> Storable(synonyms[k])
    ensures ParseEntry(EntryLine(canonical, synonyms)) == Some(Entry(canonical, synonyms))
  {
    var joined := Join(synonyms, ", ");
    var line := EntryLine(canonical, synonyms);
    assert line == canonical + ("{" + joined + "}");
    assert line[|canonical|] == '{';
    assert IndexOf(line, '{') == |canonical|;
    var rest := line[|canonical| + 1..];
    assert rest == joined + "}";
    JoinAvoids(synonyms, ", ", '}');
    assert forall j :: 0 <= j < |joined| ==> rest[j] == joined[j];
    IndexOfIs(rest, '}', |joined|);
    assert rest[..|joined|] == joined;
    assert line[..|canonical|] == canonical;
    if synonyms != [] {
      assert "" + joined == joined;
      SplitPadded("", synonyms);
    }
  }

  lemma {:induction false} JoinAvoids(xs: seq<string>, sep: string, c: char)
    requires forall j :: 0 <= j < |sep| ==> sep[j] != c
    requires forall k, j :: 0 <= k < |xs| && 0 <= j < |xs[k]| ==> xs[k][j] != c
    ensures forall j :: 0 <= j < |Join(xs, sep)| ==> Join(xs, sep)[j] != c
    decreases |xs|
  {
    if |xs| > 1 {
      JoinAvoids(xs[1..], sep, c);
      var r := Join(xs[1..], sep);
      assert Join(xs, sep) == xs[0] + sep + r;
      forall j | 0 <= j < |Join(xs, sep)| ensures Join(xs, sep)[j] != c {
        if j < |xs[0]| {
        } else if j < |xs[0]| + |sep| {
          assert Join(xs, sep)[j] == sep[j - |xs[0]|];
        } else {
          assert Join(xs, sep)[j] == r[j - |xs[0]| - |sep|];
        }
      }
    }
  }

  lemma IndexOfIs(s: string, d: char, i: nat)
    requires i <= |s|
    requires forall j :: 0 <= j < i ==> s[j] != d
    requires i < |s| ==> s[i] == d
    ensures IndexOf(s, d) == i
  {
  }

  /** Splitting at the first delimiter: the part before it, then the pieces of the rest. */
  lemma SplitAt(a: string, b: string, d: char)
    requires forall j :: 0 <= j < |a| ==> a[j] != d
    ensures Split(a + [d] + b, d) == [a] + Split(b, d)
  {
    var s := a + [d] + b;
    assert s[|a|] == d;
    assert IndexOf(s, d) == |a|;
    assert s[..|a|] == a;
    assert s[|a| + 1..] == b;
  }

  /** Trimming removes padding made of trim characters from the front of an unpadded word. */
  lemma TrimPadded(p: string, w: string)
    requires forall j :: 0 <= j < |p| ==> IsTrimSpace(p[j])
    requires |w| > 0 && Unpadded(w)
    ensures Trim(p + w) == w
  {
    var s := p + w;
    LeadingSpaceIs(s, |p|);
    assert s[|p|..] == w;
    TrailingSpaceZero(w);
  }

  lemma LeadingSpaceIs(s: string, n: nat)
    requires n <= |s|
    requires forall i :: 0 <= i < n ==> IsTrimSpace(s[i])
    requires n < |s| ==> !IsTrimSpace(s[n])
    ensures LeadingSpace(s) == n
  {
  }

  lemma TrailingSpaceZero(w: string)
    requires |w| > 0 && !IsTrimSpace(w[|w| - 1])
    ensures TrailingSpace(w) == 0
  {
  }

  /**
   * Splitting `p + Join(synonyms, ", ")` on `,` and trimming each piece gives
   * back `synonyms`, when `p` is trim characters only (the space after each comma
   * is such a prefix for every synonym but the first).
   */
  lemma {:induction false} SplitPadded(p: string, synonyms: seq<string>)
    requires forall j :: 0 <= j < |p| ==> IsTrimSpace(p[j])
    requires |synonyms| > 0
    requires forall k :: 0 <= k < |synonyms| ==> Storable(synonyms[k])
    ensures TrimAll(Split(p + Join(synonyms, ", "), ',')) == synonyms
    decreases |synonyms|
  {
    var w := synonyms[0];
    NoCommaPadded(p, w);
    TrimPadded(p, w);
    if |synonyms| == 1 {
      IndexOfIs(p + w, ',', |p + w|);
    } else {
      var tail := Join(synonyms[1..], ", ");
      JoinCons(w, synonyms[1..], ", ");
      assert [w] + synonyms[1..] == synonyms;
      assert p + Join(synonyms, ", ") == (p + w) + [','] + (" " + tail);
      SplitAt(p + w, " " + tail, ',');
      SplitPadded(" ", synonyms[1..]);
    }
  }

  /** A padded storable word holds no comma. */
  lemma NoCommaPadded(p: string, w: string)
    requires forall j :: 0 <= j < |p| ==> IsTrimSpace(p[j])
    requires Storable(w)
    ensures forall j :: 0 <= j < |p + w| ==> (p + w)[j] != ','
  {
    forall j | 0 <= j < |p + w| ensures (p + w)[j] != ',' {
      if j >= |p| { assert (p + w)[j] == w[j - |p|]; }
    }
  }
}
