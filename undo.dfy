/**
 * The undo stack of the synonym program and the two editing commands that
 * push onto it.
 *
 * The program stores closures; here an undo action is a tagged value saying
 * what the closure does: restore a copied dictionary (`inputSynonym`) or
 * remove a list of synonyms from a canonical word (`addNewWord`). The top of
 * the stack is the last element of `undoStack`.
 */
module Undo {
  import opened Synonyms

  datatype UndoAction =
    | Snapshot(saved: Dict)
    | RemoveSynonyms(canonical: Word, synonyms: seq<Word>)

  /** `removeSynonym(c, s)` for each `s` of `ss` in order. */
  function RemoveEach(d: Dict, c: Word, ss: seq<Word>): (r: Dict)
    ensures d.RangeClosed() ==> r.RangeClosed()
    decreases |ss|
  {
    if ss == [] then d else RemoveEach(d.RemoveSynonym(c, ss[0]), c, ss[1..])
  }

  /** A saved dictionary keeps the invariant of the dictionaries it was copied from. */
  predicate SnapshotClosed(a: UndoAction) {
    a.Snapshot? ==> a.saved.RangeClosed()
  }

  /** The effect of running an undo closure on the dictionary; it keeps `RangeClosed`. */
  function Perform(d: Dict, a: UndoAction): (r: Dict)
    ensures d.RangeClosed() && SnapshotClosed(a) ==> r.RangeClosed()
  {
    match a
    case Snapshot(saved) => saved
    case RemoveSynonyms(c, ss) => RemoveEach(d, c, ss)
  }

  /** The dictionary after running the top `k` actions of `stack`, topmost first. */
  function UndoTop(d: Dict, stack: seq<UndoAction>, k: nat): (r: Dict)
    requires k <= |stack|
    ensures d.RangeClosed() && (forall i :: 0 <= i < |stack| ==> SnapshotClosed(stack[i])) ==> r.RangeClosed()
  {
    if k == 0 then d else Perform(UndoTop(d, stack, k - 1), stack[|stack| - k])
  }

  /** How many actions `undoLastActions(n)` runs on a stack of `depth` actions. */
  function UndoCount(n: int, depth: nat): (k: nat)
    ensures k <= depth
    ensures k == 0 <==> n <= 0 || depth == 0
    ensures 0 < k < depth ==> k == n
    ensures 0 < k == depth ==> n >= depth
  {
    if n <= 0 then 0 else if n < depth then n else depth
  }

  const MAX_UNDO := 10

  /** The undo request after `main`'s check: larger requests are cut down to `MAX_UNDO`. */
  function ClampRequest(n: int): (r: int)
    ensures r <= MAX_UNDO
    ensures n <= MAX_UNDO ==> r == n
    ensures n > MAX_UNDO ==> r == MAX_UNDO
  {
    if n > MAX_UNDO then MAX_UNDO else n
  }

  /** Undoing `a + b` actions is undoing `a`, then `b` more from what is left. */
  lemma {:induction false} UndoInTwoSteps(d: Dict, stack: seq<UndoAction>, a: nat, b: nat)
    requires a + b <= |stack|
    ensures UndoTop(d, stack, a + b) == UndoTop(UndoTop(d, stack, a), stack[..|stack| - a], b)
    decreases b
  {
    if b > 0 {
      UndoInTwoSteps(d, stack, a, b - 1);
      assert stack[..|stack| - a][|stack| - a - b] == stack[|stack| - (a + b)];
    }
  }

  /**
   * When the oldest of the undone actions is a snapshot, the result is the
   * dictionary it saved, whatever the actions above it did.
   */
  lemma UndoToSnapshot(d: Dict, stack: seq<UndoAction>, k: nat)
    requires 0 < k <= |stack|
    requires stack[|stack| - k].Snapshot?
    ensures UndoTop(d, stack, k) == stack[|stack| - k].saved
  {
  }

  /**
   * Removing the listed synonyms of `c` leaves none of them mapped, provided
   * each was mapped to `c` or not at all, and leaves every other word's mapping alone.
   */
  lemma {:induction false} RemoveEachUnmaps(d: Dict, c: Word, ss: seq<Word>)
    requires forall s :: s in ss ==> d.MapsTo(s, c) || s !in d.synonymMap
    ensures forall s :: s in ss ==> s !in RemoveEach(d, c, ss).synonymMap
    ensures forall w :: w !in ss ==> RemoveEach(d, c, ss).SameSynonym(d, w)
    decreases |ss|
  {
    if ss != [] {
      var d1 := d.RemoveSynonym(c, ss[0]);
      assert ss[0] !in d1.synonymMap;
      forall s | s in ss[1..]
        ensures d1.MapsTo(s, c) || s !in d1.synonymMap
      {
        if s != ss[0] {
          assert d1.SameSynonym(d, s);
        }
      }
      RemoveEachUnmaps(d1, c, ss[1..]);
      var r := RemoveEach(d, c, ss);
      assert r == RemoveEach(d1, c, ss[1..]);
      forall s | s in ss
        ensures s !in r.synonymMap
      {
        if s !in ss[1..] {
          assert s == ss[0];
          assert r.SameSynonym(d1, s);
        }
      }
      forall w | w !in ss
        ensures r.SameSynonym(d, w)
      {
        assert w !in ss[1..] && w != ss[0];
        assert r.SameSynonym(d1, w) && d1.SameSynonym(d, w);
      }
    }
  }

  /**
   * Undoing `addNewWord(c, syns)` leaves every listed synonym resolving to
   * itself and every other word resolving as before the command.
   */
  lemma AddNewWordUndoUnmaps(d: Dict, c: Word, syns: seq<Word>)
    ensures var u := Perform(d.AddEntry(c, syns), RemoveSynonyms(c, syns));
      (forall s :: s in syns ==> u.Resolve(s) == s) &&
      (forall w :: w !in syns ==> u.Resolve(w) == d.Resolve(w))
  {
    var a := d.AddEntry(c, syns);
    RemoveEachUnmaps(a, c, syns);
    var u := RemoveEach(a, c, syns);
    forall w | w !in syns
      ensures u.Resolve(w) == d.Resolve(w)
    {
      assert u.SameSynonym(a, w) && a.SameSynonym(d, w);
    }
  }

  /**
   * As written, undoing `addNewWord` does not give back the dictionary: a
   * synonym taken over from another canonical word is not given back to it,
   * and the canonical word stays with an empty list (saved as `c{}`).
   */
  lemma AddNewWordUndoAsWritten()
    ensures var d := Empty.AddEntry("b", ["s"]);
      var u := Perform(d.AddEntry("c", ["s"]), RemoveSynonyms("c", ["s"]));
      d.Resolve("s") == "b" && u.Resolve("s") == "s" &&
      "c" !in d.canonicalMap && "c" in u.canonicalMap && u.canonicalMap["c"] == [] &&
      u != d
  {
    var d := Empty.AddEntry("b", ["s"]);
    assert d.MapsTo("s", "b");
    var a := d.AddEntry("c", ["s"]);
    assert a.MapsTo("s", "c");
    var r := a.RemoveSynonym("c", "s");
    assert Without(["s"], "s") == [];
    assert r.canonicalMap["c"] == [];
    assert RemoveEach(a, "c", ["s"]) == RemoveEach(r, "c", []);
    assert "c" !in d.canonicalMap;
  }

  /** Undoing an edit recorded with a snapshot gives back the dictionary as it was. */
  lemma UndoSnapshotRestores(d: Dict, edited: Dict, stack: seq<UndoAction>)
    ensures UndoTop(edited, stack + [Snapshot(d)], 1) == d
  {
  }

  class UndoManager {
    var undoStack: seq<UndoAction>

    constructor ()
      ensures undoStack == []
    {
      undoStack := [];
    }

    /** `addUndoAction`: push on top. */
    method AddUndoAction(a: UndoAction)
      modifies this
      ensures undoStack == old(undoStack) + [a]
    {
      undoStack := undoStack + [a];
    }

    /** `isEmpty`. */
    function IsEmpty(): (r: bool)
      reads this
      ensures r <==> |undoStack| == 0
    {
      undoStack == []
    }

    /**
     * `undoLastActions(n)`: run and pop the top action while fewer than `n`
     * have run and the stack is not empty.
     */
    method UndoLastActions(n: int, dict: SynonymDictionary)
      modifies this, dict
      ensures var k := UndoCount(n, |old(undoStack)|);
        undoStack == old(undoStack)[..|old(undoStack)| - k] &&
        dict.State() == UndoTop(old(dict.State()), old(undoStack), k)
    {
      var i := 0;
      while i < n && undoStack != []
        invariant 0 <= i <= |old(undoStack)|
        invariant i <= UndoCount(n, |old(undoStack)|)
        invariant undoStack == old(undoStack)[..|old(undoStack)| - i]
        invariant dict.State() == UndoTop(old(dict.State()), old(undoStack), i)
        decreases |undoStack|
      {
        var top := undoStack[|undoStack| - 1];
        Execute(top, dict);
        undoStack := undoStack[..|undoStack| - 1];
        i := i + 1;
      }
    }
  }

  /** Run one undo closure against the dictionary. */
  method Execute(a: UndoAction, dict: SynonymDictionary)
    modifies dict
    ensures dict.State() == Perform(old(dict.State()), a)
  {
    match a
    case Snapshot(saved) =>
      dict.Restore(saved);
    case RemoveSynonyms(c, ss) =>
      var i := 0;
      while i < |ss|
        invariant 0 <= i <= |ss|
        invariant RemoveEach(dict.State(), c, ss[i..]) == RemoveEach(old(dict.State()), c, ss)
      {
        assert ss[i..][1..] == ss[i + 1..];
        dict.RemoveSynonym(c, ss[i]);
        i := i + 1;
      }
  }

  /**
   * The synonyms `addNewWord` reads: the words before the first `end`, or all
   * of them when `end` never comes; also returns the words after that `end`.
   */
  method ReadSynonyms(input: seq<Word>) returns (synonyms: seq<Word>, rest: seq<Word>)
    ensures |synonyms| <= |input| && synonyms == input[..|synonyms|]
    ensures "end" !in synonyms
    ensures |synonyms| < |input| ==> input[|synonyms|] == "end" && rest == input[|synonyms| + 1..]
    ensures |synonyms| == |input| ==> rest == []
  {
    synonyms := [];
    var i := 0;
    while i < |input| && input[i] != "end"
      invariant 0 <= i <= |input|
      invariant synonyms == input[..i]
      invariant "end" !in synonyms
    {
      synonyms := synonyms + [input[i]];
      i := i + 1;
    }
    rest := if i < |input| then input[i + 1..] else [];
  }

  /** `inputSynonym`: push a snapshot of the dictionary, then add the synonym. */
  method InputSynonym(dict: SynonymDictionary, undo: UndoManager, c: Word, s: Word)
    modifies dict, undo
    ensures undo.undoStack == old(undo.undoStack) + [Snapshot(old(dict.State()))]
    ensures dict.State() == old(dict.State()).AddSynonym(c, s)
  {
    var currentState := dict.State();
    undo.AddUndoAction(Snapshot(currentState));
    dict.AddSynonym(c, s);
  }

  /** `addNewWord`: push the removal of the new synonyms, then add the entry. */
  method AddNewWord(dict: SynonymDictionary, undo: UndoManager, c: Word, syns: seq<Word>)
    modifies dict, undo
    ensures undo.undoStack == old(undo.undoStack) + [RemoveSynonyms(c, syns)]
    ensures dict.State() == old(dict.State()).AddEntry(c, syns)
  {
    undo.AddUndoAction(RemoveSynonyms(c, syns));
    dict.AddEntry(c, syns);
  }

  /**
   * `addNewWord` recording a snapshot instead of the removals, so that its undo
   * gives back the dictionary exactly (`UndoSnapshotRestores`).
   */
  method AddNewWordRestorable(dict: SynonymDictionary, undo: UndoManager, c: Word, syns: seq<Word>)
    modifies dict, undo
    ensures undo.undoStack == old(undo.undoStack) + [Snapshot(old(dict.State()))]
    ensures dict.State() == old(dict.State()).AddEntry(c, syns)
  {
    var currentState := dict.State();
    undo.AddUndoAction(Snapshot(currentState));
    dict.AddEntry(c, syns);
  }

  /** Menu option 5: clamp the request to `MAX_UNDO`, then undo. */
  method UndoCommand(dict: SynonymDictionary, undo: UndoManager, n: int)
    modifies dict, undo
    ensures var k := UndoCount(ClampRequest(n), |old(undo.undoStack)|);
      k <= MAX_UNDO &&
      undo.undoStack == old(undo.undoStack)[..|old(undo.undoStack)| - k] &&
      dict.State() == UndoTop(old(dict.State()), old(undo.undoStack), k)
  {
    var request := n;
    if request > MAX_UNDO {
      request := MAX_UNDO;
    }
    undo.UndoLastActions(request, dict);
  }
}
