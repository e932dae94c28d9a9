/**
 * `TextProcessor::processFile`: every whitespace-separated word of every input
 * line is replaced by its canonical word and written followed by one space;
 * each input line gives one output line.
 *
 * In the prompting mode (`automatic_mode == false`) a word that resolves to
 * itself makes the program ask whether to add it, and an accepted answer adds
 * the word as a synonym of the canonical word the user types. The console
 * answers are the parameter `replies`, one `Reply` per question asked.
 */
module TextRewriter {
  import opened Text
  import opened Synonyms

  /** One answer to "Add to dictionary?": anything but y/Y, or y/Y followed by a canonical word. */
  datatype Reply = Decline | Accept(canonical: Word)

  /** The dictionary together with the answers not read yet. */
  datatype Session = Session(dict: Dict, replies: seq<Reply>)

  /** Every word replaced by its canonical word. */
  function ResolveAll(d: Dict, ws: seq<Word>): (r: seq<Word>)
    ensures |r| == |ws|
    ensures forall k :: 0 <= k < |ws| ==> r[k] == d.Resolve(ws[k])
  {
    if ws == [] then [] else ResolveAll(d, ws[..|ws| - 1]) + [d.Resolve(ws[|ws| - 1])]
  }

  /**
   * The output line for `line` when the dictionary does not change while it is
   * read; a blank line gives an empty output line.
   */
  function RewriteLine(d: Dict, line: string): (r: string)
    ensures r == [] <==> forall i :: 0 <= i < |line| ==> IsSpace(line[i])
  {
    TokensEmpty(line);
    Spaced(ResolveAll(d, Tokens(line)))
  }

  /**
   * The question asked for `w`, if any: only in prompting mode and only when
   * `w` resolves to itself. Running out of answers is taken as declining.
   */
  function Learn(s: Session, w: Word, automatic: bool): (r: Session)
    ensures automatic || s.dict.Resolve(w) != w ==> r == s
    ensures |r.replies| <= |s.replies|
  {
    if automatic || s.dict.Resolve(w) != w || s.replies == [] then s
    else
      match s.replies[0]
      case Decline => Session(s.dict, s.replies[1..])
      case Accept(c) => Session(s.dict.AddSynonym(c, w), s.replies[1..])
  }

  /** The words of one line, processed left to right: the session after them and the words written. */
  function RewriteWords(s: Session, ws: seq<Word>, automatic: bool): (r: (Session, seq<Word>))
    ensures |r.1| == |ws|
    ensures |r.0.replies| <= |s.replies|
  {
    if ws == [] then (s, [])
    else
      var (s1, out) := RewriteWords(s, ws[..|ws| - 1], automatic);
      var s2 := Learn(s1, ws[|ws| - 1], automatic);
      (s2, out + [s2.dict.Resolve(ws[|ws| - 1])])
  }

  /** The whole file, processed line by line: the session after it and the output lines. */
  function RewriteLines(s: Session, lines: seq<string>, automatic: bool): (r: (Session, seq<string>))
    ensures |r.0.replies| <= |s.replies|
  {
    if lines == [] then (s, [])
    else
      var (s1, out) := RewriteLines(s, lines[..|lines| - 1], automatic);
      var (s2, ws) := RewriteWords(s1, Tokens(lines[|lines| - 1]), automatic);
      (s2, out + [Spaced(ws)])
  }

  /** In automatic mode a line's words are just resolved and the session is untouched. */
  lemma {:induction false} AutomaticWords(s: Session, ws: seq<Word>)
    ensures RewriteWords(s, ws, true) == (s, ResolveAll(s.dict, ws))
    decreases |ws|
  {
    if ws != [] {
      AutomaticWords(s, ws[..|ws| - 1]);
    }
  }

  /**
   * In automatic mode the dictionary and the answers are untouched and every
   * output line is the input line with each word replaced by its canonical word.
   */
  lemma {:induction false} AutomaticLines(s: Session, lines: seq<string>)
    ensures RewriteLines(s, lines, true).0 == s
    ensures |RewriteLines(s, lines, true).1| == |lines|
    ensures forall k :: 0 <= k < |lines| ==> RewriteLines(s, lines, true).1[k] == RewriteLine(s.dict, lines[k])
    decreases |lines|
  {
    if lines != [] {
      AutomaticLines(s, lines[..|lines| - 1]);
      AutomaticWords(s, Tokens(lines[|lines| - 1]));
    }
  }

  /** One output line per input line, in every mode. */
  lemma {:induction false} OneLinePerLine(s: Session, lines: seq<string>, automatic: bool)
    ensures |RewriteLines(s, lines, automatic).1| == |lines|
    decreases |lines|
  {
    if lines != [] {
      OneLinePerLine(s, lines[..|lines| - 1], automatic);
    }
  }

  /** An unknown word whose question is answered with a canonical word is written as that word from then on. */
  lemma AcceptedWordIsReplaced(d: Dict, w: Word, c: Word, rest: seq<Reply>)
    requires d.Resolve(w) == w
    ensures RewriteWords(Session(d, [Accept(c)] + rest), [w], false)
         == (Session(d.AddSynonym(c, w), rest), [c])
  {
    var s := Session(d, [Accept(c)] + rest);
    assert [w][..0] == [];
    assert s.replies[0] == Accept(c) && s.replies[1..] == rest;
    assert Learn(s, w, false) == Session(d.AddSynonym(c, w), rest);
    assert d.AddSynonym(c, w).Resolve(w) == c;
    assert RewriteWords(s, [w][..0], false) == (s, []);
    var s2 := Learn(s, w, false);
    assert RewriteWords(s, [w], false) == (s2, [] + [s2.dict.Resolve(w)]);
    assert [] + [c] == [c];
  }

  /** Answers are consumed in order: the answers left over are a suffix of those given. */
  lemma {:induction false} RepliesConsumedInOrder(s: Session, ws: seq<Word>, automatic: bool)
    ensures var r := RewriteWords(s, ws, automatic).0.replies;
      |r| <= |s.replies| && r == s.replies[|s.replies| - |r|..]
    decreases |ws|
  {
    if ws != [] {
      RepliesConsumedInOrder(s, ws[..|ws| - 1], automatic);
    }
  }

  /**
   * Reading an output line back word by word gives the canonical words of the
   * input line, provided every canonical word in the dictionary is a single word.
   */
  lemma RewriteLineTokens(d: Dict, line: string)
    requires forall s :: s in d.synonymMap ==> IsWord(d.synonymMap[s])
    ensures Tokens(RewriteLine(d, line)) == ResolveAll(d, Tokens(line))
  {
    TokensAreWords(line);
    TokensOfSpaced(ResolveAll(d, Tokens(line)));
  }

  class TextProcessor {
    const dictionary: SynonymDictionary

    constructor (dict: SynonymDictionary)
      ensures dictionary == dict
    {
      dictionary := dict;
    }

    /**
     * `processFile` on the lines of the input file: returns the output lines
     * (without their line feeds) and the answers left unread; the dictionary
     * ends as the specification says.
     */
    method ProcessFile(inputLines: seq<string>, automatic: bool, replies: seq<Reply>)
      returns (outputLines: seq<string>, unread: seq<Reply>)
      modifies dictionary
      ensures (Session(dictionary.State(), unread), outputLines)
           == RewriteLines(Session(old(dictionary.State()), replies), inputLines, automatic)
    {
      outputLines := [];
      unread := replies;
      var i := 0;
      while i < |inputLines|
        invariant 0 <= i <= |inputLines|
        invariant (Session(dictionary.State(), unread), outputLines)
               == RewriteLines(Session(old(dictionary.State()), replies), inputLines[..i], automatic)
      {
        assert inputLines[..i + 1][..i] == inputLines[..i];
        var text;
        text, unread := ProcessLine(Tokens(inputLines[i]), automatic, unread);
        outputLines := outputLines + [text];
        i := i + 1;
      }
      assert inputLines[..i] == inputLines;
    }

    /**
     * The body of `processFile`'s line loop: each word is looked up, the question
     * asked when it resolves to itself, and its canonical word written followed by
     * a space.
     */
    method ProcessLine(words: seq<Word>, automatic: bool, replies: seq<Reply>)
      returns (text: string, unread: seq<Reply>)
      modifies dictionary
      ensures var (s, written) := RewriteWords(Session(old(dictionary.State()), replies), words, automatic);
        s == Session(dictionary.State(), unread) && text == Spaced(written)
    {
      ghost var start := Session(dictionary.State(), replies);
      unread := replies;
      text := "";
      ghost var written: seq<Word> := [];
      var j := 0;
      while j < |words|
        invariant 0 <= j <= |words|
        invariant (Session(dictionary.State(), unread), written) == RewriteWords(start, words[..j], automatic)
        invariant text == Spaced(written)
      {
        assert words[..j + 1][..j] == words[..j];
        var word := words[j];
        var canonical := dictionary.GetCanonicalWord(word);
        if canonical == word && dictionary.GetCanonicalWord(word) == word && !automatic && unread != [] {
          var reply := unread[0];
          unread := unread[1..];
          if reply.Accept? {
            dictionary.AddSynonym(reply.canonical, word);
          }
        }
        var out := dictionary.GetCanonicalWord(word);
        text := text + out + " ";
        written := written + [out];
        j := j + 1;
      }
      assert words[..j] == words;
    }
  }
}
