// An append-only journal of JSON lines: replay skips records the snapshot covers,
// ignores a torn last line and refuses anything else it cannot read.
module Journal {
  import opened Bytes
  import opened Basics

  datatype Record<+C> = Record(version: nat, sequence: nat, command: C)

  datatype JournalError = Corrupt | UnsupportedVersion(saw: nat)

  /** The line codec, abstract but for the laws below. */
  datatype Codec<!C> = Codec(encode: Record<C> -> Text, decode: Text -> Option<Record<C>>)

  /** A record is one non-blank line that reads back; no strict prefix of it reads,
      and neither does a non-empty prefix with another record written behind it. */
  ghost predicate Lawful<C(!new)>(codec: Codec<C>) {
    && (forall r :: codec.decode(codec.encode(r)) == Some(r))
    && (forall r :: OneLine(codec.encode(r)) && !Blank(codec.encode(r)))
    && (forall r, k :: 0 <= k < |codec.encode(r)| ==> codec.decode(codec.encode(r)[..k]) == None)
    && (forall r, q, k :: 0 < k <= |codec.encode(r)| ==> codec.decode(codec.encode(r)[..k] + codec.encode(q)) == None)
  }

  function Line<C>(codec: Codec<C>, r: Record<C>): Text {
    codec.encode(r) + [NEWLINE]
  }

  function EncodeAll<C>(codec: Codec<C>, recs: seq<Record<C>>): Text {
    if |recs| == 0 then [] else Line(codec, recs[0]) + EncodeAll(codec, recs[1..])
  }

  datatype Replayed<+S> = Replayed(state: S, sequence: nat, operations: nat)

  /** One record met during replay: skipped when the state already covers it. */
  function Absorb<S, C>(apply: (S, C) -> S, acc: Replayed<S>, r: Record<C>): Replayed<S> {
    if r.sequence <= acc.sequence then acc
    else Replayed(apply(acc.state, r.command), r.sequence, acc.operations + 1)
  }

  function ReplayLines<S, C>(
    codec: Codec<C>, version: nat, apply: (S, C) -> S, lines: seq<Text>, acc: Replayed<S>): Result<Replayed<S>, JournalError>
    decreases |lines|
  {
    if |lines| == 0 then Ok(acc)
    else if Blank(lines[0]) then ReplayLines(codec, version, apply, lines[1..], acc)
    else match codec.decode(lines[0])
      case None => if |lines| == 1 then Ok(acc) else Err(Corrupt)
      case Some(r) =>
        if r.version != version then Err(UnsupportedVersion(r.version))
        else ReplayLines(codec, version, apply, lines[1..], Absorb(apply, acc, r))
  }

  function ReplayBytes<S, C>(
    codec: Codec<C>, version: nat, apply: (S, C) -> S, bytes: Text, acc: Replayed<S>): Result<Replayed<S>, JournalError>
  {
    ReplayLines(codec, version, apply, SplitLines(bytes), acc)
  }

  /** The reference meaning of a list of records. */
  function Fold<S, C>(apply: (S, C) -> S, recs: seq<Record<C>>, acc: Replayed<S>): Replayed<S> {
    if |recs| == 0 then acc else Fold(apply, recs[1..], Absorb(apply, acc, recs[0]))
  }

  function ApplyAll<S, C>(apply: (S, C) -> S, state: S, commands: seq<C>): S {
    if |commands| == 0 then state else ApplyAll(apply, apply(state, commands[0]), commands[1..])
  }

  predicate AllVersion<C>(version: nat, recs: seq<Record<C>>) {
    forall i :: 0 <= i < |recs| ==> recs[i].version == version
  }

  /** The replay loop. */
  method Replay<S, C>(codec: Codec<C>, version: nat, apply: (S, C) -> S, bytes: Text, start: Replayed<S>)
    returns (r: Result<Replayed<S>, JournalError>)
    ensures r == ReplayBytes(codec, version, apply, bytes, start)
  {
    var lines := SplitLines(bytes);
    var acc := start;
    var i := 0;
    while i < |lines|
      invariant 0 <= i <= |lines|
      invariant ReplayLines(codec, version, apply, lines[i..], acc) == ReplayBytes(codec, version, apply, bytes, start)
    {
      assert lines[i..][1..] == lines[i + 1..];
      if !Blank(lines[i]) {
        match codec.decode(lines[i]) {
          case None =>
            if i + 1 == |lines| { break; }
            return Err(Corrupt);
          case Some(record) =>
            if record.version != version {
              return Err(UnsupportedVersion(record.version));
            }
            acc := Absorb(apply, acc, record);
        }
      }
      i := i + 1;
    }
    return Ok(acc);
  }

  lemma {:induction false} EncodeSnoc<C>(codec: Codec<C>, recs: seq<Record<C>>, r: Record<C>)
    ensures EncodeAll(codec, recs + [r]) == EncodeAll(codec, recs) + Line(codec, r)
  {
    if |recs| == 0 {
      assert [r][1..] == [];
    } else {
      EncodeSnoc(codec, recs[1..], r);
      assert (recs + [r])[1..] == recs[1..] + [r];
      assert (recs + [r])[0] == recs[0];
    }
  }

  lemma {:induction false} FoldSnoc<S, C>(apply: (S, C) -> S, recs: seq<Record<C>>, r: Record<C>, acc: Replayed<S>)
    ensures Fold(apply, recs + [r], acc) == Absorb(apply, Fold(apply, recs, acc), r)
  {
    if |recs| == 0 {
      assert (recs + [r])[1..] == [];
    } else {
      FoldSnoc(apply, recs[1..], r, Absorb(apply, acc, recs[0]));
      assert (recs + [r])[1..] == recs[1..] + [r];
    }
  }

  /** Whole records are read one by one; what follows them is read after them. */
  lemma {:induction false} ReplayWhole<S, C(!new)>(
    codec: Codec<C>, version: nat, apply: (S, C) -> S, recs: seq<Record<C>>, tail: Text, acc: Replayed<S>)
    requires Lawful(codec) && AllVersion(version, recs)
    ensures ReplayBytes(codec, version, apply, EncodeAll(codec, recs) + tail, acc) ==
            ReplayBytes(codec, version, apply, tail, Fold(apply, recs, acc))
  {
    if |recs| == 0 {
      assert EncodeAll(codec, recs) + tail == tail;
    } else {
      var rest := EncodeAll(codec, recs[1..]) + tail;
      assert EncodeAll(codec, recs) + tail == codec.encode(recs[0]) + [NEWLINE] + rest;
      SplitFirst(codec.encode(recs[0]), rest);
      var lines := [codec.encode(recs[0])] + SplitLines(rest);
      assert lines[1..] == SplitLines(rest) && lines[0] == codec.encode(recs[0]);
      ReplayWhole(codec, version, apply, recs[1..], tail, Absorb(apply, acc, recs[0]));
    }
  }

  /** A last line alone: read when it decodes, ignored when it does not. */
  lemma ReplayTail<S, C>(codec: Codec<C>, version: nat, apply: (S, C) -> S, line: Text, acc: Replayed<S>)
    requires OneLine(line)
    ensures ReplayBytes(codec, version, apply, line, acc) ==
            if Blank(line) || codec.decode(line) == None then Ok(acc)
            else if codec.decode(line).value.version != version then Err(UnsupportedVersion(codec.decode(line).value.version))
            else Ok(Absorb(apply, acc, codec.decode(line).value))
  {
    SplitLast(line);
    var lines := [line];
    assert lines[1..] == [] && lines[0] == line;
    assert forall a: Replayed<S> :: ReplayLines(codec, version, apply, [], a) == Ok(a);
    assert ReplayBytes(codec, version, apply, line, acc) == ReplayLines(codec, version, apply, lines, acc);
  }

  /** The last append cut at byte `k`: the record is there exactly when all its
      bytes but the newline are. */
  lemma TornAppend<S, C(!new)>(
    codec: Codec<C>, version: nat, apply: (S, C) -> S, recs: seq<Record<C>>, last: Record<C>, k: nat, acc: Replayed<S>)
    requires Lawful(codec) && AllVersion(version, recs + [last])
    requires k <= |Line(codec, last)|
    ensures ReplayBytes(codec, version, apply, EncodeAll(codec, recs) + Line(codec, last)[..k], acc) ==
            Ok(Fold(apply, if k < |codec.encode(last)| then recs else recs + [last], acc))
  {
    var tail := Line(codec, last)[..k];
    assert AllVersion(version, recs) by {
      assert forall i :: 0 <= i < |recs| ==> recs[i] == (recs + [last])[i];
    }
    assert last.version == version by { assert (recs + [last])[|recs|] == last; }
    ReplayWhole(codec, version, apply, recs, tail, acc);
    FoldSnoc(apply, recs, last, acc);
    var encoded := codec.encode(last);
    if k <= |encoded| {
      assert tail == encoded[..k];
      ReplayTail(codec, version, apply, tail, Fold(apply, recs, acc));
      if k == |encoded| { assert tail == encoded; }
    } else {
      assert tail == Line(codec, last);
      assert AllVersion(version, [last]);
      ReplayWhole(codec, version, apply, [last], [], Fold(apply, recs, acc));
      assert EncodeAll(codec, [last]) + [] == Line(codec, last) by { assert [last][1..] == []; }
      assert Fold(apply, [last], Fold(apply, recs, acc)) == Absorb(apply, Fold(apply, recs, acc), last) by {
        assert [last][1..] == [];
      }
      ReplayTail(codec, version, apply, [], Fold(apply, recs + [last], acc));
    }
  }

  predicate EndsClean(bytes: Text) {
    |bytes| == 0 || bytes[|bytes| - 1] == NEWLINE
  }

  lemma {:induction false} WholeEndsClean<C>(codec: Codec<C>, recs: seq<Record<C>>)
    ensures EndsClean(EncodeAll(codec, recs))
  {
    if |recs| > 0 { WholeEndsClean(codec, recs[1..]); }
  }

  /** Append does not trim: writing behind a torn record makes the journal
      unreadable, and only then. `EndsClean` is what a writer could look at first. */
  lemma AppendBehindTear<S, C(!new)>(
    codec: Codec<C>, version: nat, apply: (S, C) -> S,
    recs: seq<Record<C>>, torn: Record<C>, k: nat, next: Record<C>, acc: Replayed<S>)
    requires Lawful(codec) && AllVersion(version, recs) && torn.version == version && next.version == version
    requires k <= |Line(codec, torn)|
    ensures var before := EncodeAll(codec, recs) + Line(codec, torn)[..k];
            ReplayBytes(codec, version, apply, before + Line(codec, next), acc).Ok? <==> EndsClean(before)
  {
    var cut := Line(codec, torn)[..k];
    var before := EncodeAll(codec, recs) + cut;
    var tail := cut + Line(codec, next);
    assert before + Line(codec, next) == EncodeAll(codec, recs) + tail;
    ReplayWhole(codec, version, apply, recs, tail, acc);
    WholeEndsClean(codec, recs);
    SplitLast([]);
    var encoded := codec.encode(torn);
    if 0 < k <= |encoded| {
      assert cut == encoded[..k];
      assert before[|before| - 1] == encoded[k - 1];
      JoinedLine(codec, torn, k, next);
      var joined := cut + codec.encode(next);
      assert tail == joined + [NEWLINE] + [];
      SplitFirst(joined, []);
      assert ([joined] + [[]])[0] == joined;
    } else if k == 0 {
      assert before == EncodeAll(codec, recs);
      assert tail == Line(codec, next)[..|Line(codec, next)|];
      TornAppend(codec, version, apply, [], next, |Line(codec, next)|, Fold(apply, recs, acc));
      assert [] + tail == tail;
    } else {
      assert cut == Line(codec, torn);
      TwoWhole(codec, version, apply, torn, next, Fold(apply, recs, acc));
    }
  }

  lemma JoinedLine<C(!new)>(codec: Codec<C>, torn: Record<C>, k: nat, next: Record<C>)
    requires Lawful(codec) && 0 < k <= |codec.encode(torn)|
    ensures var joined := codec.encode(torn)[..k] + codec.encode(next);
            OneLine(joined) && !Blank(joined) && codec.decode(joined) == None
  {
    var joined := codec.encode(torn)[..k] + codec.encode(next);
    var j :| 0 <= j < |codec.encode(next)| && !IsSpace(codec.encode(next)[j]);
    assert joined[k + j] == codec.encode(next)[j];
  }

  lemma TwoWhole<S, C(!new)>(
    codec: Codec<C>, version: nat, apply: (S, C) -> S, a: Record<C>, b: Record<C>, acc: Replayed<S>)
    requires Lawful(codec) && a.version == version && b.version == version
    ensures ReplayBytes(codec, version, apply, Line(codec, a) + Line(codec, b), acc).Ok?
  {
    TornAppend(codec, version, apply, [a], b, |Line(codec, b)|, acc);
    assert EncodeAll(codec, [a]) == Line(codec, a) by { assert [a][1..] == []; }
    assert Line(codec, b)[..|Line(codec, b)|] == Line(codec, b);
  }

  /** Numbered records: `recs[i]` carries sequence `base + i + 1`. */
  predicate Numbered<C>(version: nat, base: nat, recs: seq<Record<C>>) {
    forall i :: 0 <= i < |recs| ==> recs[i].version == version && recs[i].sequence == base + i + 1
  }

  function Commands<C>(recs: seq<Record<C>>): seq<C> {
    seq(|recs|, i requires 0 <= i < |recs| => recs[i].command)
  }

  /** Replay over a snapshot at sequence `at` applies exactly the records after it. */
  lemma {:induction false} FoldNumbered<S, C>(
    apply: (S, C) -> S, version: nat, base: nat, recs: seq<Record<C>>, acc: Replayed<S>)
    requires Numbered(version, base, recs) && base <= acc.sequence <= base + |recs|
    ensures var skip := acc.sequence - base;
            && Fold(apply, recs, acc).state == ApplyAll(apply, acc.state, Commands(recs)[skip..])
            && Fold(apply, recs, acc).sequence == base + |recs|
            && Fold(apply, recs, acc).operations == acc.operations + |recs| - skip
    decreases |recs|
  {
    if |recs| > 0 {
      var next := Absorb(apply, acc, recs[0]);
      assert Commands(recs)[1..] == Commands(recs[1..]);
      if recs[0].sequence > acc.sequence {
        assert acc.sequence == base;
        FoldNumbered(apply, version, base + 1, recs[1..], next);
        assert Commands(recs)[0..] == Commands(recs);
        assert Commands(recs[1..])[0..] == Commands(recs[1..]);
        assert Commands(recs)[0] == recs[0].command;
      } else {
        FoldNumbered(apply, version, base + 1, recs[1..], next);
        var skip := acc.sequence - base;
        assert Commands(recs)[skip..] == Commands(recs)[1..][skip - 1..];
      }
    }
  }

  lemma {:induction false} ApplyConcat<S, C>(apply: (S, C) -> S, state: S, a: seq<C>, b: seq<C>)
    ensures ApplyAll(apply, state, a + b) == ApplyAll(apply, ApplyAll(apply, state, a), b)
    decreases |a|
  {
    if |a| == 0 {
      assert a + b == b;
    } else {
      ApplyConcat(apply, apply(state, a[0]), a[1..], b);
      assert (a + b)[1..] == a[1..] + b;
    }
  }
}
