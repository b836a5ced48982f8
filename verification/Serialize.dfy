/** Serialized lists of `src/string-serialize.c`: every entry is preceded by a delimiter, and the first
    byte of the whole tells the reader what the delimiter is. */
module Serialize {

  const DELIMITER: char := '\U{001F}'
  const NUL: char := '\0'
  const CARET: string := "^"

  datatype Option<T> = None | Some(value: T)

  function Strip(s: string, d: char): (r: string)
    ensures d !in r && |r| <= |s|
    ensures NUL !in s ==> NUL !in r
  {
    if s == "" then "" else if s[0] == d then Strip(s[1..], d) else [s[0]] + Strip(s[1..], d)
  }

  lemma {:induction false} StripIsIdentityIff(s: string, d: char)
    ensures d !in s <==> Strip(s, d) == s
  {
    if s != "" {
      StripIsIdentityIff(s[1..], d);
      assert s == [s[0]] + s[1..];
    }
  }

  // ---------------------------------------------------------------- what is written

  datatype Op = Caret | Pair(key: string, value: string)

  /** The entry that an operation leaves behind; a value of delimiters only leaves none. */
  function EntryOf(op: Op, d: char): Option<string> {
    match op
    case Caret => Some(CARET)
    case Pair(key, value) => if Strip(value, d) == "" then None else Some(key + Strip(value, d))
  }

  function Written(target: string, op: Op, d: char): string {
    match EntryOf(op, d)
    case None => target
    case Some(entry) => target + [d] + entry
  }

  function WrittenAll(ops: seq<Op>, d: char): string {
    if ops == [] then "" else Written(WrittenAll(ops[..|ops| - 1], d), ops[|ops| - 1], d)
  }

  /** The entries of a list of operations, in order. */
  function EntriesOf(ops: seq<Op>, d: char): seq<string> {
    if ops == [] then []
    else
      EntriesOf(ops[..|ops| - 1], d) + match EntryOf(ops[|ops| - 1], d) case None => [] case Some(e) => [e]
  }

  // ---------------------------------------------------------------- what is read

  /** `strchr`: the first place of `d`, or the end. */
  function Find(s: string, d: char): (k: nat)
    ensures k <= |s| && d !in s[..k] && (k < |s| ==> s[k] == d)
  {
    if s == "" || s[0] == d then 0 else
      var k := Find(s[1..], d) + 1;
      assert s[..k] == [s[0]] + s[1..][..k - 1];
      k
  }

  function Split(s: string, d: char): (r: seq<string>)
    ensures |r| >= 1 && forall k :: 0 <= k < |r| ==> d !in r[k]
    decreases |s|
  {
    var k := Find(s, d);
    if k == |s| then
      assert s[..k] == s;
      [s]
    else [s[..k]] + Split(s[k + 1..], d)
  }

  /** What the stream yields for some data. */
  function EntriesIn(data: string): seq<string> {
    if data == "" then [] else Split(data[1..], data[0])
  }

  // ---------------------------------------------------------------- round trip

  function Joined(entries: seq<string>, d: char): string {
    if entries == [] then "" else [d] + entries[0] + Joined(entries[1..], d)
  }

  lemma {:induction false} JoinedSnoc(entries: seq<string>, e: string, d: char)
    ensures Joined(entries + [e], d) == Joined(entries, d) + [d] + e
    decreases |entries|
  {
    if entries != [] {
      JoinedSnoc(entries[1..], e, d);
      assert (entries + [e])[1..] == entries[1..] + [e];
    }
  }

  lemma {:induction false} WrittenIsJoined(ops: seq<Op>, d: char)
    ensures WrittenAll(ops, d) == Joined(EntriesOf(ops, d), d)
    decreases |ops|
  {
    hide Joined;
    if ops == [] {
      assert Joined([], d) == "" by { JoinedNone(d); }
    } else {
      var rest, op := ops[..|ops| - 1], ops[|ops| - 1];
      WrittenIsJoined(rest, d);
      match EntryOf(op, d)
      case None => assert EntriesOf(rest, d) + [] == EntriesOf(rest, d);
      case Some(e) => JoinedSnoc(EntriesOf(rest, d), e, d);
    }
  }

  lemma {:induction false} JoinedNone(d: char)
    ensures Joined([], d) == ""
  {
  }

  lemma {:induction false} FindAt(a: string, b: string, d: char)
    requires d !in a && (b == "" || b[0] == d)
    ensures Find(a + b, d) == |a|
    decreases |a|
  {
    if a != "" {
      assert (a + b)[1..] == a[1..] + b;
      FindAt(a[1..], b, d);
    } else {
      assert a + b == b;
    }
  }

  lemma {:induction false} JoinedParts(entries: seq<string>, d: char)
    requires entries != []
    ensures Joined(entries, d) != "" && Joined(entries, d)[0] == d
    ensures Joined(entries, d)[1..] == entries[0] + Joined(entries[1..], d)
  {
  }

  lemma {:induction false} SplitOff(e: string, tail: string, d: char)
    requires d !in e && (tail == "" || tail[0] == d)
    ensures Split(e + tail, d) == if tail == "" then [e] else [e] + Split(tail[1..], d)
  {
    hide Find;
    FindAt(e, tail, d);
    if tail == "" {
      assert e + tail == e;
    } else {
      assert (e + tail)[..|e|] == e && (e + tail)[|e| + 1..] == tail[1..];
    }
  }

  lemma {:induction false} SplitJoined(entries: seq<string>, d: char)
    requires entries != [] && forall k :: 0 <= k < |entries| ==> d !in entries[k]
    ensures Joined(entries, d) != "" && Joined(entries, d)[0] == d
    ensures Split(Joined(entries, d)[1..], d) == entries
    decreases |entries|
  {
    hide Find, Split, Joined;
    var e, rest := entries[0], entries[1..];
    JoinedParts(entries, d);
    if rest == [] {
      JoinedNone(d);
      SplitOff(e, "", d);
      assert e + "" == e;
    } else {
      SplitJoined(rest, d);
      SplitOff(e, Joined(rest, d), d);
      assert entries == [e] + rest;
    }
  }

  /** Reading yields exactly what was written exactly when no entry contains the delimiter, whatever the
      delimiter is. */
  lemma {:induction false} RoundTripIff(ops: seq<Op>, d: char)
    ensures EntriesIn(WrittenAll(ops, d)) == EntriesOf(ops, d) <==>
      forall k :: 0 <= k < |EntriesOf(ops, d)| ==> d !in EntriesOf(ops, d)[k]
  {
    hide Split, Joined, WrittenAll, EntriesOf;
    var es := EntriesOf(ops, d);
    WrittenIsJoined(ops, d);
    if es == [] {
      JoinedNone(d);
    } else {
      FirstIsDelimiter(es, d);
      if forall k :: 0 <= k < |es| ==> d !in es[k] {
        SplitJoined(es, d);
      }
    }
  }

  lemma {:induction false} FirstIsDelimiter(entries: seq<string>, d: char)
    requires entries != []
    ensures Joined(entries, d) != "" && Joined(entries, d)[0] == d
  {
  }

  /** With keys free of the delimiter, and a delimiter that is not the caret, everything is read back. */
  lemma {:induction false} RoundTrip(ops: seq<Op>, d: char)
    requires d !in CARET && forall k :: 0 <= k < |ops| && ops[k].Pair? ==> d !in ops[k].key
    ensures EntriesIn(WrittenAll(ops, d)) == EntriesOf(ops, d)
  {
    hide Split, WrittenAll, EntriesOf;
    EntriesAreClean(ops, d);
    RoundTripIff(ops, d);
  }

  lemma {:induction false} EntriesAreClean(ops: seq<Op>, d: char)
    requires d !in CARET && forall k :: 0 <= k < |ops| && ops[k].Pair? ==> d !in ops[k].key
    ensures forall k :: 0 <= k < |EntriesOf(ops, d)| ==> d !in EntriesOf(ops, d)[k]
    decreases |ops|
  {
    if ops != [] {
      EntriesAreClean(ops[..|ops| - 1], d);
    }
  }

  lemma {:induction false} StripConcat(a: string, b: string, d: char)
    ensures Strip(a + b, d) == Strip(a, d) + Strip(b, d)
    decreases |a|
  {
    if a == "" {
      assert a + b == b;
    } else {
      assert (a + b)[1..] == a[1..] + b;
      StripConcat(a[1..], b, d);
    }
  }

  lemma {:induction false} StripOne(c: char, d: char)
    ensures Strip([c], d) == if c == d then "" else [c]
  {
    assert Strip("", d) == "";
  }

  /** A pair leaves an entry exactly when something else than delimiters is in its value: the key and all
      these characters of the value in order. */
  lemma {:induction false} PairLeavesEntryIff(key: string, value: string, d: char)
    ensures EntryOf(Pair(key, value), d).Some? <==> exists k :: 0 <= k < |value| && value[k] != d
    ensures EntryOf(Pair(key, value), d).Some? ==> EntryOf(Pair(key, value), d).value == key + Strip(value, d)
    decreases |value|
  {
    if value != "" {
      var n := |value| - 1;
      PairLeavesEntryIff(key, value[..n], d);
      assert value == value[..n] + [value[n]];
      StripConcat(value[..n], [value[n]], d);
      StripOne(value[n], d);
      assert forall k :: 0 <= k < n ==> value[..n][k] == value[k];
    }
  }

  predicate IsPlain(op: Op, d: char) {
    op.Pair? ==> d !in op.key && d !in op.value && op.value != ""
  }

  /** What an operation writes when no delimiter is in it. */
  function PlainEntry(op: Op): string {
    match op case Caret => CARET case Pair(key, value) => key + value
  }

  /** Without delimiters in keys and values, reading gives every caret and every key with its value, in
      order. */
  lemma {:induction false} PlainRoundTrip(ops: seq<Op>, d: char)
    requires d !in CARET && forall k :: 0 <= k < |ops| ==> IsPlain(ops[k], d)
    ensures EntriesIn(WrittenAll(ops, d)) == seq(|ops|, k requires 0 <= k < |ops| => PlainEntry(ops[k]))
  {
    hide Split, WrittenAll, EntriesOf;
    PlainEntries(ops, d);
    assert forall k :: 0 <= k < |ops| && ops[k].Pair? ==> IsPlain(ops[k], d);
    RoundTrip(ops, d);
  }

  lemma {:induction false} PlainEntries(ops: seq<Op>, d: char)
    requires forall k :: 0 <= k < |ops| ==> IsPlain(ops[k], d)
    ensures EntriesOf(ops, d) == seq(|ops|, k requires 0 <= k < |ops| => PlainEntry(ops[k]))
    decreases |ops|
  {
    if ops != [] {
      var n := |ops| - 1;
      var op := ops[n];
      PlainEntries(ops[..n], d);
      assert IsPlain(op, d);
      if op.Pair? {
        StripIsIdentityIff(op.value, d);
      }
    }
  }

  // ---------------------------------------------------------------- the buffer

  /** `struct string`: `len` characters and a NUL behind them. A target that does not exist yet is an
      empty one. */
  class Text {
    var ptr: array<char>
    var len: nat

    ghost predicate Valid()
      reads this, ptr
    {
      len < ptr.Length && ptr[len] == NUL
    }

    ghost function Content(): string
      reads this, ptr
      requires Valid()
    {
      ptr[..len]
    }

    constructor ()
      ensures Valid() && Content() == "" && fresh(ptr)
    {
      ptr := new char[1](_ => NUL);
      len := 0;
    }

    /** `make_string_fit_more`. */
    method FitMore(n: nat)
      requires Valid()
      modifies `ptr
      ensures Valid() && Content() == old(Content()) && len + n < ptr.Length
      ensures ptr == old(ptr) || fresh(ptr)
    {
      if len + n >= ptr.Length {
        var bigger := new char[(len + n) * 2 + 68](_ => NUL);
        for k := 0 to len
          modifies bigger
          invariant bigger[..k] == ptr[..k] && forall m :: k <= m < bigger.Length ==> bigger[m] == NUL
        {
          bigger[k] := ptr[k];
        }
        ptr := bigger;
      }
    }

    /** `catas`. */
    method Append(s: string)
      requires Valid()
      modifies this, ptr
      ensures Valid() && Content() == old(Content()) + s
      ensures ptr == old(ptr) || fresh(ptr)
    {
      FitMore(|s|);
      for k := 0 to |s|
        modifies ptr
        invariant ptr[..len + k] == old(Content()) + s[..k]
      {
        ptr[len + k] := s[k];
      }
      ptr[len + |s|] := NUL;
      len := len + |s|;
    }

    method SerializeCaret()
      requires Valid()
      modifies this, ptr
      ensures Valid() && Content() == Written(old(Content()), Caret, DELIMITER)
      ensures ptr == old(ptr) || fresh(ptr)
    {
      Append([DELIMITER, '^']);
      assert old(Content()) + [DELIMITER, '^'] == old(Content()) + [DELIMITER] + CARET;
    }

    /** Moves what is behind `p` one place to the left, up to and including the NUL. */
    method CloseGap(p: nat)
      requires Valid() && p < len && NUL !in ptr[p..len]
      modifies this`len, ptr
      ensures Valid() && len == old(len) - 1 && Content() == old(Content())[..p] + old(Content())[p + 1..]
    {
      ghost var was := ptr[..];
      assert forall m :: p <= m < len ==> was[m] == ptr[p..len][m - p] != NUL;
      var j := p;
      while ptr[j] != NUL
        modifies ptr
        invariant p <= j <= len
        invariant forall m :: 0 <= m < p ==> ptr[m] == was[m]
        invariant forall m :: p <= m < j ==> ptr[m] == was[m + 1]
        invariant forall m :: j <= m < ptr.Length ==> ptr[m] == was[m]
        decreases len - j
      {
        ptr[j] := ptr[j + 1];
        j := j + 1;
      }
      len := len - 1;
      ptr[len] := NUL;
    }

    /** A delimiter is taken out of the middle. */
    method DropDelimiter(p: nat, ghost a: string, ghost b: string)
      requires Valid() && Content() == a + [DELIMITER] + b && p == |a| && NUL !in b
      modifies this`len, ptr
      ensures Valid() && len == old(len) - 1 && Content() == a + b
    {
      assert Content()[..p] == a && Content()[p + 1..] == b;
      assert ptr[p..len] == [DELIMITER] + b;
      CloseGap(p);
    }

    /** One place of the value; what is behind it is clean already. */
    method StripPlace(p: nat, ghost front: string, ghost value: string, ghost n: nat) returns (dropped: bool)
      requires Valid() && NUL !in value && n < |value| && p == |front| + n
      requires Content() == front + value[..n + 1] + Strip(value[n + 1..], DELIMITER)
      modifies this`len, ptr
      ensures Valid() && Content() == front + value[..n] + Strip(value[n..], DELIMITER)
      ensures len == old(len) - if dropped then 1 else 0
    {
      hide Strip;
      ghost var a, rest := front + value[..n], Strip(value[n + 1..], DELIMITER);
      CutLast(value, n, DELIMITER);
      assert Content() == a + [value[n]] + rest;
      assert ptr[p] == Content()[|a|];
      dropped := ptr[p] == DELIMITER;
      if dropped {
        DropDelimiter(p, a, rest);
      } else {
        assert a + [value[n]] + rest == a + ([value[n]] + rest);
      }
    }

    /** Goes through the value from its end. When nothing is left of it, the key and the delimiter before
        it go as well. */
    method StripValue(valueLen: nat, keyLen: nat, ghost front: string, ghost value: string)
      requires Valid() && Content() == front + value && |value| == valueLen >= 1 && |front| >= 1 + keyLen
      requires NUL !in value
      modifies this`len, ptr
      ensures Valid()
      ensures Content() == if Strip(value, DELIMITER) == "" then front[..|front| - (1 + keyLen)]
                           else front + Strip(value, DELIMITER)
    {
      hide Strip;
      StripOfNothing(DELIMITER);
      assert value[..|value|] == value && value[0..] == value;
      var end := len;
      for i := 0 to valueLen
        modifies this`len, ptr
        invariant Valid() && Content() == front + value[..valueLen - i] + Strip(value[valueLen - i..], DELIMITER)
        invariant i > 0 ==> len + valueLen > end
      {
        var dropped := StripPlace(end - i - 1, front, value, valueLen - i - 1);
        if dropped {
          if len + valueLen == end {
            assert Content() == front;
            len := len - (1 + keyLen);
            ptr[len] := NUL;
            return;
          }
        }
      }
      assert front + value[..0] == front;
    }

    /** Appends a delimiter, the key and the value, and takes the delimiters out of the value again. Of a
        value without anything else nothing is left at all. */
    method SerializeArray(key: string, value: string)
      requires Valid() && NUL !in value
      modifies this, ptr
      ensures Valid() && Content() == Written(old(Content()), Pair(key, value), DELIMITER)
      ensures ptr == old(ptr) || fresh(ptr)
    {
      hide Strip;
      StripOfNothing(DELIMITER);
      if |value| == 0 {
        return;
      }
      ghost var target, front := Content(), Content() + [DELIMITER] + key;
      Append([DELIMITER] + key + value);
      assert Content() == front + value;
      StripValue(|value|, |key|, front, value);
      assert front[..|front| - (1 + |key|)] == target;
      assert front + Strip(value, DELIMITER) == target + [DELIMITER] + (key + Strip(value, DELIMITER));
    }
  }

  lemma {:induction false} StripOfNothing(d: char)
    ensures Strip("", d) == ""
  {
  }

  lemma {:induction false} CutLast(s: string, n: nat, d: char)
    requires n < |s|
    ensures s[..n + 1] == s[..n] + [s[n]]
    ensures Strip(s[n..], d) == (if s[n] == d then "" else [s[n]]) + Strip(s[n + 1..], d)
  {
    assert s[n..][1..] == s[n + 1..];
  }

  // ---------------------------------------------------------------- the stream

  /** `struct deserialize_stream` over some data; the positions are -1 where the source has NULL. */
  class Stream {
    const data: string
    var delimiter: char
    var prev: int
    var next: int
    /** The entries still to come. */
    ghost var rest: seq<string>

    ghost predicate Valid()
      reads this
    {
      if prev < 0 then next < 0 && rest == []
      else
        && prev < |data|
        && rest == Split(data[prev + 1..], delimiter)
        && next == Position(data, prev + 1, delimiter)
    }

    /** `strchr` from a place on. */
    static method Search(data: string, from: nat, d: char) returns (k: int)
      requires from <= |data|
      ensures k == Position(data, from, d)
    {
      k := from;
      while k < |data| && data[k] != d
        invariant from <= k <= |data|
        invariant Find(data[from..], d) == k - from + Find(data[k..], d)
      {
        assert data[k..][1..] == data[k + 1..];
        k := k + 1;
      }
      if k == |data| {
        k := -1;
      }
    }

    constructor (data: string)
      ensures Valid() && rest == EntriesIn(data) && this.data == data
    {
      this.data := data;
      if data == "" {
        delimiter, prev, next, rest := NUL, -1, -1, [];
      } else {
        delimiter, prev, rest := data[0], 0, EntriesIn(data);
        var k := Search(data, 1, data[0]);
        next := k;
      }
    }

    /** Yields the entries one after another, and then nothing for ever. */
    method GetNextEntry() returns (entry: Option<string>)
      requires Valid()
      modifies this
      ensures Valid()
      ensures if old(rest) == [] then entry == None && rest == []
              else entry == Some(old(rest)[0]) && rest == old(rest)[1..]
    {
      hide Split, Find, Position;
      if next < 0 && prev < 0 {
        return None;
      }
      SplitFrom(data, prev + 1, delimiter);
      if next < 0 {
        entry := Some(data[prev + 1..]);
        prev, rest := -1, [];
      } else {
        entry := Some(data[prev + 1..next]);
        rest := rest[1..];
        prev := next;
        next := Search(data, next + 1, delimiter);
      }
    }
  }

  function Position(data: string, from: nat, d: char): (k: int)
    requires from <= |data|
    ensures k == -1 || from <= k < |data|
  {
    var k := Find(data[from..], d);
    if from + k == |data| then -1 else from + k
  }

  lemma {:induction false} SplitFrom(data: string, from: nat, d: char)
    requires from <= |data|
    ensures var p := Position(data, from, d);
      Split(data[from..], d) == if p < 0 then [data[from..]] else [data[from..p]] + Split(data[p + 1..], d)
  {
    hide Find;
    var k := Find(data[from..], d);
    if from + k < |data| {
      assert data[from..][..k] == data[from..from + k] && data[from..][k + 1..] == data[from + k + 1..];
    }
  }

  /** Reads the whole stream. */
  method ReadAll(data: string) returns (entries: seq<string>)
    ensures entries == EntriesIn(data)
  {
    hide Split, Position;
    var stream := new Stream(data);
    entries := [];
    var entry := stream.GetNextEntry();
    while entry.Some?
      invariant fresh(stream) && stream.Valid()
      invariant entries + (if entry.Some? then [entry.value] else []) + stream.rest == EntriesIn(data)
      invariant entry.None? ==> stream.rest == []
      decreases |stream.rest| + if entry.Some? then 1 else 0
    {
      entries := entries + [entry.value];
      entry := stream.GetNextEntry();
    }
  }
}
