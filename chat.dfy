/**
 * The chat message store: a `std::set<Message>` ordered by (time, user) with
 * `std::string`'s lexicographic `<`; the text takes no part in the order, so
 * two messages with the same time and user are the same element.
 *
 * The set is modelled as the sequence of its elements in iteration order,
 * strictly ascending (`Sorted`).
 */
module Chat {
  import opened Wrappers
  import opened Text

  datatype Message = Message(user: string, time: string, text: string)

  /** `std::string`'s `<`: lexicographic by character code, a proper prefix first. */
  predicate LexLess(a: string, b: string)
    decreases |a|
  {
    if a == [] then b != []
    else if b == [] then false
    else if a[0] != b[0] then a[0] < b[0]
    else LexLess(a[1..], b[1..])
  }

  lemma {:induction false} LexLessIrreflexive(a: string)
    ensures !LexLess(a, a)
    decreases |a|
  {
    if a != [] {
      LexLessIrreflexive(a[1..]);
    }
  }

  lemma {:induction false} LexLessTransitive(a: string, b: string, c: string)
    requires LexLess(a, b) && LexLess(b, c)
    ensures LexLess(a, c)
    decreases |a|
  {
    if a != [] && b != [] && c != [] && a[0] == b[0] && b[0] == c[0] {
      LexLessTransitive(a[1..], b[1..], c[1..]);
    }
  }

  /** Any two different strings are ordered one way or the other. */
  lemma {:induction false} LexLessTotal(a: string, b: string)
    requires a != b
    ensures LexLess(a, b) || LexLess(b, a)
    decreases |a|
  {
    if a != [] && b != [] && a[0] == b[0] {
      assert a == [a[0]] + a[1..] && b == [b[0]] + b[1..];
      LexLessTotal(a[1..], b[1..]);
    }
  }

  lemma LexLessAsymmetric(a: string, b: string)
    requires LexLess(a, b)
    ensures !LexLess(b, a)
  {
    if LexLess(b, a) {
      LexLessTransitive(a, b, a);
      LexLessIrreflexive(a);
    }
  }

  /** `Message::operator<`: by time, and by user when the times are equal. */
  predicate MsgLess(a: Message, b: Message) {
    if a.time == b.time then LexLess(a.user, b.user) else LexLess(a.time, b.time)
  }

  /** The two messages occupy the same place in the set: same time and same user. */
  predicate SameKey(a: Message, b: Message) {
    a.time == b.time && a.user == b.user
  }

  /**
   * `operator<` is a strict order whose equivalence is exactly `SameKey`:
   * neither message is before the other iff time and user agree, whatever the texts.
   */
  lemma Equivalence(a: Message, b: Message)
    ensures !MsgLess(a, b) && !MsgLess(b, a) <==> SameKey(a, b)
  {
    if SameKey(a, b) {
      LexLessIrreflexive(a.user);
    } else if a.time == b.time {
      LexLessTotal(a.user, b.user);
    } else {
      LexLessTotal(a.time, b.time);
    }
  }

  lemma MsgLessIrreflexive(a: Message)
    ensures !MsgLess(a, a)
  {
    LexLessIrreflexive(a.user);
  }

  lemma MsgLessTransitive(a: Message, b: Message, c: Message)
    requires MsgLess(a, b) && MsgLess(b, c)
    ensures MsgLess(a, c)
  {
    if a.time == b.time && b.time == c.time {
      LexLessTransitive(a.user, b.user, c.user);
    } else if a.time != b.time && b.time != c.time {
      LexLessTransitive(a.time, b.time, c.time);
      if a.time == c.time {
        LexLessAsymmetric(a.time, b.time);
      }
    }
  }

  /** The order only looks at the key. */
  lemma MsgLessByKey(a: Message, a': Message, b: Message)
    requires SameKey(a, a')
    ensures MsgLess(a, b) == MsgLess(a', b) && MsgLess(b, a) == MsgLess(b, a')
  {
  }

  /** The iteration order of the set: strictly ascending. */
  predicate Sorted(ms: seq<Message>) {
    forall i, j :: 0 <= i < j < |ms| ==> MsgLess(ms[i], ms[j])
  }

  /** Some element of `ms` has `m`'s key. */
  predicate HasKey(ms: seq<Message>, m: Message) {
    exists x :: x in ms && SameKey(x, m)
  }

  /** No two elements of an ordered set share a key. */
  lemma SortedKeysUnique(ms: seq<Message>, i: int, j: int)
    requires Sorted(ms) && 0 <= i < j < |ms|
    ensures !SameKey(ms[i], ms[j])
  {
    Equivalence(ms[i], ms[j]);
  }

  /** Everything in an ascending sequence is above anything below its first element. */
  lemma BelowAll(m: Message, ms: seq<Message>)
    requires Sorted(ms) && ms != [] && MsgLess(m, ms[0])
    ensures forall x :: x in ms ==> MsgLess(m, x)
  {
    forall x | x in ms
      ensures MsgLess(m, x)
    {
      if x != ms[0] {
        MsgLessTransitive(m, ms[0], x);
      }
    }
  }

  /** An element below every element of an ascending sequence can go in front. */
  lemma SortedCons(x: Message, ms: seq<Message>)
    requires Sorted(ms)
    requires forall y :: y in ms ==> MsgLess(x, y)
    ensures Sorted([x] + ms)
  {
    var r := [x] + ms;
    forall i, j | 0 <= i < j < |r|
      ensures MsgLess(r[i], r[j])
    {
      if i > 0 {
        assert r[i] == ms[i - 1] && r[j] == ms[j - 1];
      } else {
        assert r[j] in ms;
      }
    }
  }

  /**
   * `set::emplace`: the message goes in at its place in the order unless an
   * element with the same time and user is there already, which is then kept
   * unchanged (with its own text).
   */
  function Insert(ms: seq<Message>, m: Message): (r: seq<Message>)
    requires Sorted(ms)
    ensures Sorted(r)
    ensures HasKey(ms, m) ==> r == ms
    ensures !HasKey(ms, m) ==> multiset(r) == multiset(ms) + multiset{m}
    decreases |ms|
  {
    if ms == [] then [m]
    else if MsgLess(m, ms[0]) then
      BelowAll(m, ms);
      NoKeyBelow(m, ms);
      SortedCons(m, ms);
      [m] + ms
    else if MsgLess(ms[0], m) then
      var tail := ms[1..];
      assert ms == [ms[0]] + tail;
      var r' := Insert(tail, m);
      KeyAfterHead(ms, m);
      forall y | y in r'
        ensures MsgLess(ms[0], y)
      {
        if y != m {
          assert y in multiset(r');
          assert y in tail;
        }
      }
      SortedCons(ms[0], r');
      [ms[0]] + r'
    else
      Equivalence(ms[0], m);
      ms
  }

  lemma NoKeyBelow(m: Message, ms: seq<Message>)
    requires forall x :: x in ms ==> MsgLess(m, x)
    ensures !HasKey(ms, m)
  {
    if HasKey(ms, m) {
      var x :| x in ms && SameKey(x, m);
      Equivalence(x, m);
    }
  }

  lemma KeyAfterHead(ms: seq<Message>, m: Message)
    requires ms != [] && MsgLess(ms[0], m)
    ensures HasKey(ms, m) <==> HasKey(ms[1..], m)
  {
    Equivalence(ms[0], m);
    MsgLessIrreflexive(m);
    if HasKey(ms, m) {
      var x :| x in ms && SameKey(x, m);
      assert x in ms[1..];
    }
  }

  /** `deleteMessage`'s comparison: same user, times equal once all whitespace is stripped. */
  predicate DeleteMatch(m: Message, user: string, time: string) {
    m.user == user && StripSpace(m.time) == StripSpace(time)
  }

  /** `find_if`: the index of the first message in order that `DeleteMatch`es. */
  function FirstMatch(ms: seq<Message>, user: string, time: string): (r: Option<nat>)
    ensures r.Some? ==> r.value < |ms| && DeleteMatch(ms[r.value], user, time)
    ensures r.Some? ==> forall k :: 0 <= k < r.value ==> !DeleteMatch(ms[k], user, time)
    ensures r.None? <==> forall k :: 0 <= k < |ms| ==> !DeleteMatch(ms[k], user, time)
  {
    if ms == [] then None
    else if DeleteMatch(ms[0], user, time) then Some(0)
    else match FirstMatch(ms[1..], user, time)
      case None => None
      case Some(i) => Some(i + 1)
  }

  /** Removing one element keeps a sequence ascending. */
  lemma SortedRemove(ms: seq<Message>, i: nat)
    requires Sorted(ms) && i < |ms|
    ensures Sorted(ms[..i] + ms[i + 1..])
  {
    var r := ms[..i] + ms[i + 1..];
    forall a, b | 0 <= a < b < |r|
      ensures MsgLess(r[a], r[b])
    {
      var a' := if a < i then a else a + 1;
      var b' := if b < i then b else b + 1;
      assert r[a] == ms[a'] && r[b] == ms[b'];
    }
  }

  /** What a listing selects. */
  datatype Criterion =
    | ByUser(user: string)
    | InRange(startTime: string, endTime: string)
    | ByUserInRange(user: string, startTime: string, endTime: string)
    | NotByUser(user: string)

  /** `startTime <= time && time <= endTime` with `std::string`'s comparison. */
  predicate InWindow(time: string, startTime: string, endTime: string) {
    !LexLess(time, startTime) && !LexLess(endTime, time)
  }

  /** The window is inclusive at both ends: it holds iff start comes before or is the time, and the time before or is end. */
  lemma InWindowInclusive(time: string, startTime: string, endTime: string)
    ensures InWindow(time, startTime, endTime) <==>
      (startTime == time || LexLess(startTime, time)) && (time == endTime || LexLess(time, endTime))
  {
    LexLessIrreflexive(time);
    if startTime != time {
      LexLessTotal(startTime, time);
      if LexLess(startTime, time) {
        LexLessAsymmetric(startTime, time);
      }
    }
    if time != endTime {
      LexLessTotal(time, endTime);
      if LexLess(time, endTime) {
        LexLessAsymmetric(time, endTime);
      }
    }
  }

  predicate Matches(c: Criterion, m: Message) {
    match c
    case ByUser(u) => m.user == u
    case InRange(s, e) => InWindow(m.time, s, e)
    case ByUserInRange(u, s, e) => m.user == u && InWindow(m.time, s, e)
    case NotByUser(u) => m.user != u
  }

  /** The messages meeting `c`, in the order of `ms`. */
  function Filter(ms: seq<Message>, c: Criterion): (r: seq<Message>)
    ensures |r| <= |ms|
  {
    if ms == [] then []
    else
      var init, last := ms[..|ms| - 1], ms[|ms| - 1];
      assert ms == init + [last];
      if Matches(c, last) then Filter(init, c) + [last] else Filter(init, c)
  }

  /** A listing holds exactly the messages of the set that meet the criterion. */
  lemma {:induction false} FilterMembers(ms: seq<Message>, c: Criterion)
    ensures forall x :: x in Filter(ms, c) <==> x in ms && Matches(c, x)
    decreases |ms|
  {
    if ms != [] {
      var init, last := ms[..|ms| - 1], ms[|ms| - 1];
      assert ms == init + [last];
      FilterMembers(init, c);
    }
  }

  /** Filtering one more message at the end. */
  lemma FilterSnoc(ms: seq<Message>, m: Message, c: Criterion)
    ensures Filter(ms + [m], c) == if Matches(c, m) then Filter(ms, c) + [m] else Filter(ms, c)
  {
    assert (ms + [m])[..|ms|] == ms;
  }

  /** A listing of an ordered set comes out in the set's order. */
  lemma {:induction false} FilterSorted(ms: seq<Message>, c: Criterion)
    requires Sorted(ms)
    ensures Sorted(Filter(ms, c))
    decreases |ms|
  {
    if ms != [] {
      var init, last := ms[..|ms| - 1], ms[|ms| - 1];
      assert Sorted(init) by {
        forall i, j | 0 <= i < j < |init|
          ensures MsgLess(init[i], init[j])
        {
          assert init[i] == ms[i] && init[j] == ms[j];
        }
      }
      FilterSorted(init, c);
      FilterMembers(init, c);
      var r := Filter(init, c);
      if Matches(c, last) {
        var r' := r + [last];
        forall i, j | 0 <= i < j < |r'|
          ensures MsgLess(r'[i], r'[j])
        {
          if j == |r| {
            assert r'[i] in init;
            var k :| 0 <= k < |init| && init[k] == r'[i];
            assert ms[k] == r'[i];
          } else {
            assert r'[i] == r[i] && r'[j] == r[j];
          }
        }
      }
    }
  }

  /** A filter by a criterion implied by another selects a subset. */
  lemma RangeWithinUser(ms: seq<Message>, u: string, s: string, e: string)
    ensures forall x :: x in Filter(ms, ByUserInRange(u, s, e)) <==>
      x in Filter(ms, ByUser(u)) && x in Filter(ms, InRange(s, e))
  {
    FilterMembers(ms, ByUserInRange(u, s, e));
    FilterMembers(ms, ByUser(u));
    FilterMembers(ms, InRange(s, e));
  }

  /**
   * One step of the erasing walk: the message at the cursor is the next one of
   * the original sequence, and erasing it or stepping over it keeps the walk's
   * invariant.
   */
  lemma EraseStep(ms: seq<Message>, original: seq<Message>, i: nat, k: nat, user: string)
    requires i < |ms| && k <= |original|
    requires ms[..i] == Filter(original[..k], NotByUser(user))
    requires ms[i..] == original[k..]
    ensures k < |original| && ms[i] == original[k]
    ensures ms[i].user == user ==>
      (ms[..i] + ms[i + 1..])[..i] == Filter(original[..k + 1], NotByUser(user)) &&
      (ms[..i] + ms[i + 1..])[i..] == original[k + 1..]
    ensures ms[i].user != user ==>
      ms[..i + 1] == Filter(original[..k + 1], NotByUser(user)) &&
      ms[i + 1..] == original[k + 1..]
  {
    assert ms[i] == ms[i..][0] == original[k..][0];
    assert original[..k + 1] == original[..k] + [original[k]];
    FilterSnoc(original[..k], original[k], NotByUser(user));
    assert ms[i + 1..] == ms[i..][1..] == original[k + 1..];
    assert ms[..i + 1] == ms[..i] + [ms[i]];
  }

  class MessageStore {
    var messages: seq<Message>

    /** The set's elements in its iteration order, ascending by (time, user). */
    predicate Valid()
      reads this
    {
      Sorted(messages)
    }

    constructor ()
      ensures messages == [] && Valid()
    {
      messages := [];
    }

    /** `addMessage`. */
    method AddMessage(user: string, time: string, text: string)
      requires Valid()
      modifies this
      ensures Valid()
      ensures messages == Insert(old(messages), Message(user, time, text))
    {
      messages := Insert(messages, Message(user, time, text));
    }

    /**
     * `deleteMessage`: erase the first message in order whose user is `user`
     * and whose time equals `time` ignoring whitespace; `deleted` says whether
     * one was found.
     */
    method DeleteMessage(user: string, time: string) returns (deleted: bool)
      requires Valid()
      modifies this
      ensures Valid()
      ensures deleted <==> FirstMatch(old(messages), user, time).Some?
      ensures !deleted ==> messages == old(messages)
      ensures deleted ==> var i := FirstMatch(old(messages), user, time).value;
        messages == old(messages)[..i] + old(messages)[i + 1..]
    {
      var found := FirstMatch(messages, user, time);
      if found.Some? {
        SortedRemove(messages, found.value);
        messages := messages[..found.value] + messages[found.value + 1..];
        deleted := true;
      } else {
        deleted := false;
      }
    }

    /** `deleteMessagesByUser`: walk the set, erasing every message of `user`. */
    method DeleteMessagesByUser(user: string)
      requires Valid()
      modifies this
      ensures Valid()
      ensures messages == Filter(old(messages), NotByUser(user))
    {
      FilterSorted(messages, NotByUser(user));
      ghost var original := messages;
      ghost var k := 0;
      var i := 0;
      while i < |messages|
        invariant 0 <= i <= |messages| && 0 <= k <= |original|
        invariant messages[..i] == Filter(original[..k], NotByUser(user))
        invariant messages[i..] == original[k..]
        decreases |original| - k
      {
        EraseStep(messages, original, i, k, user);
        if messages[i].user == user {
          messages := messages[..i] + messages[i + 1..];
        } else {
          i := i + 1;
        }
        k := k + 1;
      }
      assert original[..k] == original;
      assert messages == messages[..i] + messages[i..];
    }

    /** The messages a printing loop visits under `c`, in iteration order. */
    method Visit(c: Criterion) returns (shown: seq<Message>)
      ensures shown == Filter(messages, c)
    {
      shown := [];
      var i := 0;
      while i < |messages|
        invariant 0 <= i <= |messages|
        invariant shown == Filter(messages[..i], c)
      {
        assert messages[..i + 1] == messages[..i] + [messages[i]];
        if Matches(c, messages[i]) {
          shown := shown + [messages[i]];
        }
        i := i + 1;
      }
      assert messages[..i] == messages;
    }

    /** `printMessagesByUser`: the messages printed. */
    method PrintMessagesByUser(user: string) returns (shown: seq<Message>)
      ensures shown == Filter(messages, ByUser(user))
    {
      shown := Visit(ByUser(user));
    }

    /** `printMessagesByUserInRange`: the messages printed. */
    method PrintMessagesByUserInRange(user: string, startTime: string, endTime: string) returns (shown: seq<Message>)
      ensures shown == Filter(messages, ByUserInRange(user, startTime, endTime))
    {
      shown := Visit(ByUserInRange(user, startTime, endTime));
    }

    /** `printMessagesInRange`: the messages printed. */
    method PrintMessagesInRange(startTime: string, endTime: string) returns (shown: seq<Message>)
      ensures shown == Filter(messages, InRange(startTime, endTime))
    {
      shown := Visit(InRange(startTime, endTime));
    }
  }

  /** A character `.` matches: anything but a line terminator. */
  predicate IsLineChar(c: char) {
    c != '\n' && c != '\r'
  }

  /** Non-empty and made of whitespace only (`\s+`). */
  predicate IsBlank(s: string) {
    |s| > 0 && forall i :: 0 <= i < |s| ==> IsSpace(s[i])
  }

  /** Non-empty and free of line terminators (`.+`). */
  predicate IsLine(s: string) {
    |s| > 0 && forall i :: 0 <= i < |s| ==> IsLineChar(s[i])
  }

  /**
   * `line` matches `(\S+)\s+(\S+):\s+(.+)` with these groups and blanks: user
   * word, blank, time word, colon, blank, text.
   */
  predicate Shape(line: string, user: string, blank1: string, time: string, blank2: string, text: string) {
    line == user + blank1 + time + ":" + blank2 + text &&
    IsWord(user) && IsBlank(blank1) && IsWord(time) && IsBlank(blank2) && IsLine(text)
  }

  /**
   * `regex_match` of the message pattern: the user is the first word, the time
   * the second word without its final `:`; the first blank run after the colon
   * is taken whole when text follows it, and otherwise its last character is
   * the text.
   */
  function ParseMessage(line: string): (r: Option<Message>)
    ensures r.Some? ==> IsWord(r.value.user) && IsWord(r.value.time) && IsLine(r.value.text)
    ensures r.Some? ==> r.value.user == line[..WordLen(line)]
  {
    var n := WordLen(line);
    WordLenSpec(line);
    var s := SpaceLen(line[n..]);
    if n == 0 || s == 0 then None else ParseTimeAndText(line[..n], line[n..][s..])
  }

  /** The rest of the pattern after the user and the first blank: `(\S+):\s+(.+)`. */
  function ParseTimeAndText(user: string, r: string): (m: Option<Message>)
    ensures m.Some? ==> m.value.user == user && IsWord(m.value.time) && IsLine(m.value.text)
  {
    var n := WordLen(r);
    WordLenSpec(r);
    if n < 2 || r[n - 1] != ':' then None else ParseText(user, r[..n - 1], r[n..])
  }

  /** The rest of the pattern after the colon: `\s+(.+)`, backtracking one blank when no text follows. */
  function ParseText(user: string, time: string, r: string): (m: Option<Message>)
    ensures m.Some? ==> m.value.user == user && m.value.time == time && IsLine(m.value.text)
  {
    var s := SpaceLen(r);
    var rest := r[s..];
    if s == 0 then None
    else if rest != [] then
      if IsLine(rest) then Some(Message(user, time, rest)) else None
    else if s >= 2 && IsLineChar(r[s - 1]) then Some(Message(user, time, [r[s - 1]]))
    else None
  }

  /** Every message read from a line comes from a match of the pattern with those groups. */
  lemma ParseMessageSound(line: string)
    requires ParseMessage(line).Some?
    ensures var m := ParseMessage(line).value;
      exists b1, b2 :: Shape(line, m.user, b1, m.time, b2, m.text)
  {
    var m := ParseMessage(line).value;
    var user, b1, r2 := ParseUserSound(line);
    var b2 := ParseTextSound(m.user, r2);
    ShapeOfParts(m.user, b1, m.time, b2, m.text);
  }

  lemma ShapeOfParts(user: string, b1: string, time: string, b2: string, text: string)
    requires IsWord(user) && IsBlank(b1) && IsWord(time) && IsBlank(b2) && IsLine(text)
    ensures Shape(user + b1 + (time + ":" + b2 + text), user, b1, time, b2, text)
  {
    assert user + b1 + (time + ":" + b2 + text) == user + b1 + time + ":" + b2 + text;
  }

  /** What `ParseMessage` takes before handing over: the user word and a blank. */
  lemma ParseUserSound(line: string) returns (user: string, b1: string, r2: string)
    requires ParseMessage(line).Some?
    ensures ParseMessage(line) == ParseTimeAndText(user, r2)
    ensures line == user + b1 + r2
    ensures IsWord(user) && IsBlank(b1)
  {
    var n := WordLen(line);
    WordLenSpec(line);
    var r1 := line[n..];
    var s := SpaceLen(r1);
    user, b1, r2 := line[..n], r1[..s], r1[s..];
    CutTwice(line, n, s);
  }

  /** A string is its prefix, then the next `s` characters, then the rest. */
  lemma CutTwice(line: string, n: nat, s: nat)
    requires n <= |line| && s <= |line| - n
    ensures line == line[..n] + line[n..][..s] + line[n..][s..]
  {
    assert line[n..] == line[n..][..s] + line[n..][s..];
  }

  /** What `ParseTimeAndText` accepts: time word, colon, blank, text. */
  lemma ParseTextSound(user: string, r: string) returns (b2: string)
    requires ParseTimeAndText(user, r).Some?
    ensures var m := ParseTimeAndText(user, r).value;
      m.user == user && r == m.time + ":" + b2 + m.text &&
      IsWord(m.time) && IsBlank(b2) && IsLine(m.text)
  {
    var m := ParseTimeAndText(user, r).value;
    var n := WordLen(r);
    WordLenSpec(r);
    var r3 := r[n..];
    var s := SpaceLen(r3);
    assert r[..n] == r[..n - 1] + ":";
    assert r == r[..n - 1] + ":" + r3;
    if r3[s..] != [] {
      b2 := r3[..s];
      assert r3 == b2 + r3[s..];
    } else {
      b2 := r3[..s - 1];
      assert r3 == b2 + [r3[s - 1]];
    }
  }

  /**
   * Every line that matches the pattern is read, with the user and time of the
   * match, and with the text itself when it does not start with whitespace.
   */
  lemma ParseMessageComplete(line: string, user: string, b1: string, time: string, b2: string, text: string)
    requires Shape(line, user, b1, time, b2, text)
    ensures ParseMessage(line).Some?
    ensures ParseMessage(line).value.user == user && ParseMessage(line).value.time == time
    ensures !IsSpace(text[0]) ==> ParseMessage(line).value.text == text
  {
    var r2 := time + ":" + b2 + text;
    var r1 := b1 + r2;
    assert line == user + r1;
    WordLenUnique(line, |user|);
    assert line[..|user|] == user && line[|user|..] == r1;
    SpaceLenUnique(r1, |b1|);
    assert r1[|b1|..] == r2;
    ParseTimeAndTextComplete(user, time, b2, text);
  }

  lemma ParseTimeAndTextComplete(user: string, time: string, b2: string, text: string)
    requires IsWord(time) && IsBlank(b2) && IsLine(text)
    ensures var r := ParseTimeAndText(user, time + ":" + b2 + text);
      r.Some? && r.value.user == user && r.value.time == time &&
      (!IsSpace(text[0]) ==> r.value.text == text)
  {
    var word := time + ":";
    var r := word + (b2 + text);
    assert r == time + ":" + b2 + text;
    WordLenUnique(r, |word|);
    assert r[..|word|] == word && r[|word|..] == b2 + text;
    assert word[..|word| - 1] == time;
    ParseTextComplete(user, time, b2, text);
  }

  lemma ParseTextComplete(user: string, time: string, b2: string, text: string)
    requires IsBlank(b2) && IsLine(text)
    ensures var r := ParseText(user, time, b2 + text);
      r.Some? && r.value.user == user && r.value.time == time &&
      (!IsSpace(text[0]) ==> r.value.text == text)
  {
    var r3 := b2 + text;
    var lead := SpaceLen(text);
    SpaceLenUnique(r3, |b2| + lead);
    assert r3[|b2| + lead..] == text[lead..];
    if lead == |text| {
      assert r3[|b2| + lead - 1] == text[|text| - 1];
    }
  }

  /** The store after one line: its message inserted if the line matches the pattern. */
  function LoadOne(ms: seq<Message>, line: string): (r: seq<Message>)
    requires Sorted(ms)
    ensures Sorted(r)
  {
    match ParseMessage(line)
    case None => ms
    case Some(m) => Insert(ms, m)
  }

  /** The store after loading `lines` in order into `ms`. */
  function LoadAll(ms: seq<Message>, lines: seq<string>): (r: seq<Message>)
    requires Sorted(ms)
    ensures Sorted(r)
  {
    if lines == [] then ms else LoadOne(LoadAll(ms, lines[..|lines| - 1]), lines[|lines| - 1])
  }

  /** Loading one more line at the end. */
  lemma LoadAllSnoc(ms: seq<Message>, lines: seq<string>, line: string)
    requires Sorted(ms)
    ensures LoadAll(ms, lines + [line]) == LoadOne(LoadAll(ms, lines), line)
  {
    assert (lines + [line])[..|lines|] == lines;
  }

  /** One iteration of the reading loop: add the line's message if it matches the pattern. */
  method LoadLine(line: string, store: MessageStore) returns (loaded: bool)
    requires store.Valid()
    modifies store
    ensures store.Valid()
    ensures loaded <==> ParseMessage(line).Some?
    ensures store.messages == LoadOne(old(store.messages), line)
  {
    var parsed := ParseMessage(line);
    if parsed.Some? {
      store.AddMessage(parsed.value.user, parsed.value.time, parsed.value.text);
      loaded := true;
    } else {
      loaded := false;
    }
  }

  /**
   * `loadMessagesFromFile` on the lines of one file: each line that matches the
   * pattern is added; the others are reported and skipped.
   */
  method LoadMessages(lines: seq<string>, store: MessageStore)
    requires store.Valid()
    modifies store
    ensures store.Valid()
    ensures store.messages == LoadAll(old(store.messages), lines)
  {
    ghost var initial := store.messages;
    var i := 0;
    while i < |lines|
      invariant 0 <= i <= |lines|
      invariant store.messages == LoadAll(initial, lines[..i])
    {
      LoadAllSnoc(initial, lines[..i], lines[i]);
      assert lines[..i + 1] == lines[..i] + [lines[i]];
      var loaded := LoadLine(lines[i], store);
      i := i + 1;
    }
    assert lines[..i] == lines;
  }
}
