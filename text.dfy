/**
 * Character classes and the whitespace tokenizer shared by the programs:
 * `std::isspace` in the "C" locale and the word extraction performed by
 * `operator>>` on a `std::string` stream.
 */
module Text {

  /** `isspace` in the "C" locale: space, tab, line feed, vertical tab, form feed, carriage return. */
  predicate IsSpace(c: char) {
    c == ' ' || c == '\t' || c == '\n' || c == '\U{0B}' || c == '\U{0C}' || c == '\r'
  }

  /** A token as `operator>>` extracts it: at least one character, none of them whitespace. */
  predicate IsWord(s: string) {
    |s| > 0 && forall i :: 0 <= i < |s| ==> !IsSpace(s[i])
  }

  /** Length of the run of non-whitespace characters at the start of `s`. */
  function WordLen(s: string): (n: nat)
    ensures n <= |s|
  {
    if s == [] || IsSpace(s[0]) then 0 else 1 + WordLen(s[1..])
  }

  /** The run is all non-whitespace, and it stops at whitespace or at the end. */
  lemma {:induction false} WordLenSpec(s: string)
    ensures forall i :: 0 <= i < WordLen(s) ==> !IsSpace(s[i])
    ensures WordLen(s) < |s| ==> IsSpace(s[WordLen(s)])
    decreases |s|
  {
    if s != [] && !IsSpace(s[0]) {
      WordLenSpec(s[1..]);
    }
  }

  /** Length of the run of whitespace characters at the start of `s`. */
  function SpaceLen(s: string): (n: nat)
    ensures n <= |s|
    ensures forall i :: 0 <= i < n ==> IsSpace(s[i])
    ensures n < |s| ==> !IsSpace(s[n])
  {
    if s == [] || !IsSpace(s[0]) then 0 else 1 + SpaceLen(s[1..])
  }

  /** The run of whitespace characters is determined by its two defining properties. */
  lemma SpaceLenUnique(s: string, n: nat)
    requires n <= |s|
    requires forall i :: 0 <= i < n ==> IsSpace(s[i])
    requires n < |s| ==> !IsSpace(s[n])
    ensures SpaceLen(s) == n
  {
  }

  /** The words a loop `while (stream >> word)` reads from `s`, in order. */
  function Tokens(s: string): (r: seq<string>)
    ensures |r| <= |s|
    decreases |s|
  {
    if s == [] then []
    else if IsSpace(s[0]) then Tokens(s[1..])
    else
      var n := WordLen(s);
      [s[..n]] + Tokens(s[n..])
  }

  /** A line yields no words exactly when it is blank. */
  lemma {:induction false} TokensEmpty(s: string)
    ensures Tokens(s) == [] <==> forall i :: 0 <= i < |s| ==> IsSpace(s[i])
    decreases |s|
  {
    if s != [] && IsSpace(s[0]) {
      TokensEmpty(s[1..]);
      assert forall i :: 1 <= i < |s| ==> s[i] == s[1..][i - 1];
    }
  }

  /** Every token is a word: non-empty and free of whitespace. */
  lemma {:induction false} TokensAreWords(s: string)
    ensures forall k :: 0 <= k < |Tokens(s)| ==> IsWord(Tokens(s)[k])
    decreases |s|
  {
    if s != [] {
      if IsSpace(s[0]) {
        TokensAreWords(s[1..]);
      } else {
        var n := WordLen(s);
        WordLenSpec(s);
        TokensAreWords(s[n..]);
        assert Tokens(s) == [s[..n]] + Tokens(s[n..]);
      }
    }
  }

  /** The run of non-whitespace characters is determined by its two defining properties. */
  lemma {:induction false} WordLenUnique(s: string, n: nat)
    requires n <= |s|
    requires forall i :: 0 <= i < n ==> !IsSpace(s[i])
    requires n < |s| ==> IsSpace(s[n])
    ensures WordLen(s) == n
    decreases n
  {
    if n > 0 {
      assert !IsSpace(s[0]);
      WordLenUnique(s[1..], n - 1);
    }
  }

  /** Tokenizing splits at a whitespace boundary: the words of `p + q` are those of `p`, then those of `q`. */
  lemma {:induction false} TokensAppend(p: string, q: string)
    requires p == [] || IsSpace(p[|p| - 1])
    ensures Tokens(p + q) == Tokens(p) + Tokens(q)
    decreases |p|
  {
    if p == [] {
      assert p + q == q;
    } else if IsSpace(p[0]) {
      assert (p + q)[1..] == p[1..] + q;
      TokensAppend(p[1..], q);
    } else {
      var n := WordLen(p);
      WordLenSpec(p);
      assert n < |p|;
      WordLenUnique(p + q, n);
      assert (p + q)[..n] == p[..n];
      assert (p + q)[n..] == p[n..] + q;
      TokensAppend(p[n..], q);
    }
  }

  /** A single word followed by one space reads back as exactly that word. */
  lemma TokensOfSpacedWord(w: string)
    requires IsWord(w)
    ensures Tokens(w + " ") == [w]
  {
    var s := w + " ";
    WordLenUnique(s, |w|);
    assert s[..|w|] == w;
    assert s[|w|..] == " ";
    assert Tokens(" ") == Tokens("");
  }

  /** Each word followed by one space, as a loop of `out << word << " "` writes them. */
  function Spaced(ws: seq<string>): string {
    if ws == [] then [] else Spaced(ws[..|ws| - 1]) + ws[|ws| - 1] + " "
  }

  /** The words of a spaced sequence of words read back as exactly those words. */
  lemma {:induction false} TokensOfSpaced(ws: seq<string>)
    requires forall k :: 0 <= k < |ws| ==> IsWord(ws[k])
    ensures Tokens(Spaced(ws)) == ws
    decreases |ws|
  {
    if ws != [] {
      var init, last := ws[..|ws| - 1], ws[|ws| - 1];
      var p := Spaced(init);
      TokensOfSpaced(init);
      assert p == [] || IsSpace(p[|p| - 1]);
      assert Spaced(ws) == p + (last + " ");
      TokensAppend(p, last + " ");
      TokensOfSpacedWord(last);
      assert ws == init + [last];
    }
  }

  /** The characters of `s` that are not whitespace, in order (`erase(remove_if(..., ::isspace))`). */
  function StripSpace(s: string): (r: string)
    ensures |r| <= |s|
    ensures forall i :: 0 <= i < |r| ==> !IsSpace(r[i])
    ensures |s| == 1 ==> r == (if IsSpace(s[0]) then [] else s)
  {
    if s == [] then []
    else if IsSpace(s[|s| - 1]) then StripSpace(s[..|s| - 1])
    else StripSpace(s[..|s| - 1]) + [s[|s| - 1]]
  }

  /** Stripping works character by character, so the characters kept stay in their order. */
  lemma {:induction false} StripSpaceAppend(a: string, b: string)
    ensures StripSpace(a + b) == StripSpace(a) + StripSpace(b)
    decreases |b|
  {
    if b == [] {
      assert a + b == a;
    } else {
      var init, last := b[..|b| - 1], b[|b| - 1];
      assert a + b == (a + init) + [last];
      assert (a + b)[..|a + b| - 1] == a + init;
      StripSpaceAppend(a, init);
    }
  }

  /** Stripping keeps exactly the characters that are not whitespace. */
  lemma {:induction false} StripSpaceMembers(s: string)
    ensures forall c :: c in StripSpace(s) <==> c in s && !IsSpace(c)
  {
    if s != [] {
      var init := s[..|s| - 1];
      assert s == init + [s[|s| - 1]];
      StripSpaceMembers(init);
    }
  }

  /** Stripping whitespace twice is the same as stripping it once. */
  lemma {:induction false} StripSpaceIdempotent(s: string)
    ensures StripSpace(StripSpace(s)) == StripSpace(s)
  {
    if s != [] {
      var init := s[..|s| - 1];
      StripSpaceIdempotent(init);
      var r := StripSpace(init);
      if !IsSpace(s[|s| - 1]) {
        assert (r + [s[|s| - 1]])[..|r|] == r;
      }
    }
  }
}
