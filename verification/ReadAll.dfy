/** Reading a stream to its end into a buffer that doubles whenever it is full. */
module ReadAll {
  import opened Integers
  import opened Wrappers

  type Byte = b: int | 0 <= b < 256

  // What one read() does: deliver at most so many bytes (at least one if any can be), be interrupted, or fail.
  datatype Outcome = Upto(k: nat) | Interrupted | Failed

  function Min(a: nat, b: nat): nat {
    if a < b then a else b
  }

  function Rest(outcomes: seq<Outcome>): seq<Outcome> {
    if outcomes == [] then [] else outcomes[1..]
  }

  // How many bytes a call that is neither interrupted nor fails delivers.
  function Delivered(size: nat, left: nat, outcomes: seq<Outcome>): nat {
    var most := Min(size, left);
    if outcomes != [] && outcomes[0].Upto? then Min(most, if outcomes[0].k == 0 then 1 else outcomes[0].k) else most
  }

  // The open stream: what is left to read, and how the coming calls of read() turn out. Calls beyond those deliver in
  // full.
  class Source {
    var data: seq<Byte>
    var outcomes: seq<Outcome>

    constructor (data: seq<Byte>, outcomes: seq<Outcome>)
      ensures this.data == data && this.outcomes == outcomes
    {
      this.data, this.outcomes := data, outcomes;
    }

    // read(): `n` is the count of bytes in `got`, or -1; `interrupted` is errno == EINTR.
    method Read(size: nat) returns (n: int, got: seq<Byte>, interrupted: bool)
      modifies this
      ensures outcomes == Rest(old(outcomes))
      ensures n == -1 <==> old(outcomes) != [] && !old(outcomes)[0].Upto?
      ensures n == -1 ==> data == old(data) && (interrupted <==> old(outcomes)[0].Interrupted?)
      ensures n != -1 ==> n == Delivered(size, |old(data)|, old(outcomes))
      ensures n != -1 ==> got == old(data)[..n] && data == old(data)[n..]
    {
      n, got, interrupted := -1, [], false;
      if outcomes == [] || outcomes[0].Upto? {
        n := Delivered(size, |data|, outcomes);
        got := data[..n];
        data := data[n..];
      } else {
        interrupted := outcomes[0].Interrupted?;
      }
      outcomes := Rest(outcomes);
    }
  }

  /* One fill */

  // How many bytes it took from the stream, whether or not it gave up, and how the calls after its own turn out.
  datatype Fill = Fill(gaveUp: bool, count: nat, rest: seq<Outcome>)

  // What the next call comes to; the 51st interruption counts as a refusal.
  datatype Call = Refused | Again | Bytes(n: nat)

  function NextCall(left: nat, outcomes: seq<Outcome>, space: nat, interruptions: nat): Call {
    if outcomes == [] || outcomes[0].Upto? then Bytes(Delivered(space, left, outcomes))
    else if outcomes[0].Interrupted? && interruptions < 50 then Again
    else Refused
  }

  // Calls of read until the space is full or the stream has ended, or one is refused.
  function FillFrom(left: nat, outcomes: seq<Outcome>, space: nat, interruptions: nat): (f: Fill)
    ensures f.count <= Min(space, left) && |f.rest| <= |outcomes|
    decreases |outcomes|, left
  {
    match NextCall(left, outcomes, space, interruptions)
    case Refused => Fill(true, 0, Rest(outcomes))
    case Again => FillFrom(left, Rest(outcomes), space, interruptions + 1)
    case Bytes(n) =>
      if n == 0 then Fill(false, 0, Rest(outcomes))
      else
        var f := FillFrom(left - n, Rest(outcomes), space - n, interruptions);
        Fill(f.gaveUp, n + f.count, f.rest)
  }

  function Interruptions(outcomes: seq<Outcome>): nat {
    if outcomes == [] then 0 else (if outcomes[0].Interrupted? then 1 else 0) + Interruptions(outcomes[1..])
  }

  // The last call failed, or made it one interruption too many.
  predicate GaveUp(calls: seq<Outcome>, interruptions: nat) {
    calls != [] && (calls[|calls| - 1].Failed? || interruptions + Interruptions(calls) > 50)
  }

  lemma GaveUpCons(head: Outcome, calls: seq<Outcome>, interruptions: nat)
    ensures var counted := interruptions + if head.Interrupted? then 1 else 0;
            GaveUp([head] + calls, interruptions)
            <==> if calls == [] then head.Failed? || counted > 50 else GaveUp(calls, counted)
  {
    var all := [head] + calls;
    assert all[1..] == calls && all[|all| - 1] == if calls == [] then head else calls[|calls| - 1];
    assert Interruptions(all) == (if head.Interrupted? then 1 else 0) + Interruptions(calls);
  }

  // A fill that does not give up takes all it can, over any short reads.
  lemma {:induction false} FillTakesAll(left: nat, outcomes: seq<Outcome>, space: nat, interruptions: nat)
    ensures var f := FillFrom(left, outcomes, space, interruptions);
            !f.gaveUp ==> f.count == Min(space, left)
    decreases |outcomes|, left
  {
    match NextCall(left, outcomes, space, interruptions) {
      case Refused =>
      case Again => FillTakesAll(left, Rest(outcomes), space, interruptions + 1);
      case Bytes(n) =>
        if n > 0 {
          FillTakesAll(left - n, Rest(outcomes), space - n, interruptions);
        }
    }
  }

  // The prescribed calls that a fill makes.
  function CallsMade(left: nat, outcomes: seq<Outcome>, space: nat, interruptions: nat): seq<Outcome>
    decreases |outcomes|, left
  {
    var head := if outcomes == [] then [] else [outcomes[0]];
    head +
    match NextCall(left, outcomes, space, interruptions)
    case Refused => []
    case Again => CallsMade(left, Rest(outcomes), space, interruptions + 1)
    case Bytes(n) => if n == 0 then [] else CallsMade(left - n, Rest(outcomes), space - n, interruptions)
  }

  lemma {:induction false} NoCallsLeft(left: nat, space: nat, interruptions: nat)
    ensures CallsMade(left, [], space, interruptions) == []
    ensures !FillFrom(left, [], space, interruptions).gaveUp && FillFrom(left, [], space, interruptions).rest == []
    decreases left
  {
    var n := Delivered(space, left, []);
    if n > 0 {
      NoCallsLeft(left - n, space - n, interruptions);
    }
  }

  // The calls of a fill that begins with one that does not end it.
  lemma LaterCalls(outcomes: seq<Outcome>, calls: seq<Outcome>, f: Fill, interruptions: nat)
    requires outcomes != [] && !outcomes[0].Failed?
    requires var counted := interruptions + if outcomes[0].Interrupted? then 1 else 0;
             counted <= 50 && outcomes[1..] == calls + f.rest && (f.gaveUp <==> GaveUp(calls, counted))
    ensures outcomes == ([outcomes[0]] + calls) + f.rest && (f.gaveUp <==> GaveUp([outcomes[0]] + calls, interruptions))
  {
    GaveUpCons(outcomes[0], calls, interruptions);
    assert outcomes == [outcomes[0]] + outcomes[1..];
    assert ([outcomes[0]] + calls) + f.rest == [outcomes[0]] + (calls + f.rest);
  }

  lemma LastCall(outcomes: seq<Outcome>, gaveUp: bool, interruptions: nat)
    requires outcomes != [] && interruptions <= 50
    requires gaveUp <==> outcomes[0].Failed? || (outcomes[0].Interrupted? && interruptions == 50)
    ensures outcomes == [outcomes[0]] + Rest(outcomes) && (gaveUp <==> GaveUp([outcomes[0]], interruptions))
  {
    GaveUpCons(outcomes[0], [], interruptions);
    assert [outcomes[0]] + [] == [outcomes[0]];
  }

  /** A fill gives up exactly when the last call it made failed or was the 51st to be interrupted. */
  lemma {:induction false} GivesUpExactlyThen(left: nat, outcomes: seq<Outcome>, space: nat, interruptions: nat)
    requires interruptions <= 50
    ensures var f := FillFrom(left, outcomes, space, interruptions);
            var calls := CallsMade(left, outcomes, space, interruptions);
            outcomes == calls + f.rest && (f.gaveUp <==> GaveUp(calls, interruptions))
    decreases |outcomes|
  {
    if outcomes == [] {
      NoCallsLeft(left, space, interruptions);
    } else {
      var made := CallsMade(left, outcomes, space, interruptions);
      match NextCall(left, outcomes, space, interruptions) {
        case Refused =>
          LastCall(outcomes, true, interruptions);
          assert made == [outcomes[0]];
        case Again =>
          GivesUpExactlyThen(left, outcomes[1..], space, interruptions + 1);
          LaterCalls(outcomes, made[1..], FillFrom(left, outcomes, space, interruptions), interruptions);
        case Bytes(n) =>
          if n > 0 {
            GivesUpExactlyThen(left - n, outcomes[1..], space - n, interruptions);
            LaterCalls(outcomes, made[1..], FillFrom(left, outcomes, space, interruptions), interruptions);
          } else {
            LastCall(outcomes, false, interruptions);
            assert made == [outcomes[0]];
          }
      }
    }
  }

  // The space from `offset` on holds the first `have` bytes of `data`, and the stream the rest.
  ghost predicate Filled(data: seq<Byte>, buf: seq<Byte>, offset: int, have: int, left: seq<Byte>) {
    && 0 <= have <= |data| && 0 <= offset && offset + have <= |buf|
    && buf[offset..offset + have] == data[..have] && left == data[have..]
  }

  // What read() itself does to the caller's buffer, behind the `have` bytes read before.
  method Store(buf: array<Byte>, offset: nat, have: nat, got: seq<Byte>, ghost data: seq<Byte>)
    requires offset + have + |got| <= buf.Length && have + |got| <= |data| && got == data[have..][..|got|]
    requires buf[offset..offset + have] == data[..have]
    modifies buf
    ensures buf[..offset] == old(buf[..offset])
    ensures Filled(data, buf[..], offset, have + |got|, data[have..][|got|..])
  {
    var at := offset + have;
    for i := 0 to |got|
      invariant buf[..at] == old(buf[..at]) && buf[at..at + i] == got[..i]
    {
      buf[at + i] := got[i];
    }
    assert buf[..offset] == buf[..at][..offset];
    assert buf[offset..at] == buf[..at][offset..];
    assert buf[offset..at + |got|] == buf[offset..at] + buf[at..at + |got|];
    assert buf[..][offset..at + |got|] == buf[offset..at + |got|];
    assert data[..have + |got|] == data[..have] + got && data[have..][|got|..] == data[have + |got|..];
  }

  // read(fd, buf + rbytes, ...): what the call delivers is in the buffer, behind what was read before.
  method ReadInto(fp: Source, buf: array<Byte>, offset: nat, have: nat, size: nat, ghost data: seq<Byte>)
    returns (n: int, interrupted: bool)
    requires offset + have + size <= buf.Length && Filled(data, buf[..], offset, have, fp.data)
    modifies fp, buf
    ensures fp.outcomes == Rest(old(fp.outcomes)) && buf[..offset] == old(buf[..offset])
    ensures n == -1 <==> old(fp.outcomes) != [] && !old(fp.outcomes)[0].Upto?
    ensures n == -1 ==> (interrupted <==> old(fp.outcomes)[0].Interrupted?)
    ensures n == -1 ==> Filled(data, buf[..], offset, have, fp.data)
    ensures n != -1 ==> n == Delivered(size, |old(fp.data)|, old(fp.outcomes)) && |fp.data| == |old(fp.data)| - n
                        && Filled(data, buf[..], offset, have + n, fp.data)
  {
    var got;
    n, got, interrupted := fp.Read(size);
    if n != -1 {
      Store(buf, offset, have, got, data);
    }
  }

  // A fill that has taken `count` bytes so far and goes on like this comes to f.
  predicate ComesTo(f: Fill, count: nat, left: nat, outcomes: seq<Outcome>, space: nat, interruptions: nat) {
    var g := FillFrom(left, outcomes, space, interruptions);
    f == Fill(g.gaveUp, count + g.count, g.rest)
  }

  lemma OneCallOn(f: Fill, count: nat, left: nat, outcomes: seq<Outcome>, space: nat, interruptions: nat)
    requires ComesTo(f, count, left, outcomes, space, interruptions)
    ensures match NextCall(left, outcomes, space, interruptions)
            case Refused => f == Fill(true, count, Rest(outcomes))
            case Again => ComesTo(f, count, left, Rest(outcomes), space, interruptions + 1)
            case Bytes(n) =>
              if n == 0 then f == Fill(false, count, Rest(outcomes))
              else ComesTo(f, count + n, left - n, Rest(outcomes), space - n, interruptions)
  {
  }

  // The body of the loop of read_atmost_n, within a fill that comes to f; `ended` where it returns `rbytes`, or -1 if
  // `refused`.
  method ReadOnce(fp: Source, buf: array<Byte>, offset: nat, have: int32, readUpto: nat, eintrs: int32,
                  ghost data: seq<Byte>, ghost f: Fill)
    returns (rbytes: int32, interruptions: int32, ended: bool, refused: bool)
    requires offset + readUpto <= buf.Length && readUpto <= INT_MAX && have <= readUpto && 0 <= eintrs <= 50
    requires Filled(data, buf[..], offset, have, fp.data)
    requires ComesTo(f, have, |fp.data|, fp.outcomes, readUpto - have, eintrs)
    modifies fp, buf
    ensures buf[..offset] == old(buf[..offset]) && Filled(data, buf[..], offset, rbytes, fp.data)
    ensures have <= rbytes <= readUpto && 0 <= interruptions <= 50
    ensures if ended then f == Fill(refused, rbytes, fp.outcomes)
            else
              && ComesTo(f, rbytes, |fp.data|, fp.outcomes, readUpto - rbytes, interruptions)
              && |fp.outcomes| + |fp.data| < |old(fp.outcomes)| + |old(fp.data)|
  {
    OneCallOn(f, have, |fp.data|, fp.outcomes, readUpto - have, eintrs);
    rbytes, interruptions, ended, refused := have, eintrs, true, false;
    var n, interrupted := ReadInto(fp, buf, offset, have, readUpto - have, data);
    if n == -1 {
      if !interrupted || eintrs >= 50 {
        refused := true;
      } else {
        interruptions, ended := eintrs + 1, false;
      }
    } else if n > 0 {
      rbytes, ended := have + n, false;
    }
  }

  // read_atmost_n.
  method ReadAtMostN(fp: Source, buf: array<Byte>, offset: nat, readUpto: nat) returns (result: int32)
    requires offset + readUpto <= buf.Length && readUpto <= INT_MAX
    modifies fp, buf
    ensures var f := old(FillFrom(|fp.data|, fp.outcomes, readUpto, 0));
            && result == (if f.gaveUp then -1 else f.count) && fp.outcomes == f.rest
            && Filled(old(fp.data), buf[..], offset, f.count, fp.data) && buf[..offset] == old(buf[..offset])
  {
    var rbytes: int32, interruptions: int32, ended, refused := 0, 0, false, false;
    ghost var data, f := fp.data, FillFrom(|fp.data|, fp.outcomes, readUpto, 0);
    while !ended
      invariant 0 <= rbytes <= readUpto && 0 <= interruptions <= 50
      invariant buf[..offset] == old(buf[..offset]) && Filled(data, buf[..], offset, rbytes, fp.data)
      invariant if ended then f == Fill(refused, rbytes, fp.outcomes)
                else ComesTo(f, rbytes, |fp.data|, fp.outcomes, readUpto - rbytes, interruptions)
      decreases !ended, |fp.outcomes| + |fp.data|
    {
      rbytes, interruptions, ended, refused := ReadOnce(fp, buf, offset, rbytes, readUpto, interruptions, data, f);
    }
    result := if refused then -1 else rbytes;
  }

  /* The loop of read_all */

  // At its head: the buffer's size, the bytes read, the space to fill next, and what the stream still holds.
  datatype Loop = Loop(size: nat, total: nat, fill: nat, left: nat, outcomes: seq<Outcome>)

  // The loop goes on, or it leaves with this result, after a fill that gave up or one that met the end of the stream.
  datatype End = End(total: int, gaveUp: bool)

  datatype Turn = Grows(next: Loop) | Ends(end: End)

  function Start(size: nat, left: nat, outcomes: seq<Outcome>): Loop {
    Loop(size, 0, size, left, outcomes)
  }

  function NextFill(l: Loop): Fill {
    FillFrom(l.left, l.outcomes, l.fill, 0)
  }

  function OneTurn(l: Loop): Turn {
    var f := NextFill(l);
    if f.gaveUp then Ends(End(if l.total == 0 then -1 else l.total, true))
    else if f.count == l.fill then
      Grows(Loop(2 * l.size, l.total + f.count, l.size, l.left - f.count, f.rest))
    else Ends(End(l.total + f.count, false))
  }

  // The loop completes n fills from l on, and its next turn is `end`.
  predicate Comes(l: Loop, n: nat, end: End)
    decreases n
  {
    if n == 0 then OneTurn(l) == Ends(end)
    else OneTurn(l).Grows? && Comes(OneTurn(l).next, n - 1, end)
  }

  ghost predicate Returns(l: Loop) {
    exists n, end :: Comes(l, n, end)
  }

  // It ends in one way only.
  lemma {:induction false} ComesOnce(l: Loop, n: nat, end: End, m: nat, other: End)
    requires Comes(l, n, end) && Comes(l, m, other)
    ensures n == m && end == other
    decreases n
  {
    if n > 0 && m > 0 {
      ComesOnce(OneTurn(l).next, n - 1, end, m - 1, other);
    }
  }

  // The buffer's size after n doublings.
  function Capacity(size: nat, n: nat): (c: nat)
    ensures c > 0 <==> size > 0
  {
    if n == 0 then size else 2 * Capacity(size, n - 1)
  }

  lemma {:induction false} CapacityDoubles(size: nat, n: nat)
    ensures Capacity(2 * size, n) == Capacity(size, n + 1)
  {
    if n > 0 {
      CapacityDoubles(size, n - 1);
    }
  }

  lemma DoubledTurn(l: Loop)
    requires l.fill == l.total && l.size == 2 * l.total && l.total > 0
    ensures match OneTurn(l)
            case Grows(m) =>
              m.fill == m.total == 2 * l.total && m.size == 2 * m.total && m.total + m.left == l.total + l.left
            case Ends(end) => end.total == if end.gaveUp then l.total else l.total + l.left
  {
    FillTakesAll(l.left, l.outcomes, l.fill, 0);
  }

  // Once the buffer has doubled, its second half is the space to fill: what was read doubles with every turn.
  lemma {:induction false} DoublesOn(l: Loop, n: nat, end: End)
    requires l.fill == l.total && l.size == 2 * l.total && l.total > 0 && Comes(l, n, end)
    ensures end.total == if end.gaveUp then Capacity(l.total, n) else l.total + l.left
    ensures end.total <= l.total + l.left
    decreases n
  {
    DoubledTurn(l);
    if n > 0 {
      DoublesOn(OneTurn(l).next, n - 1, end);
      CapacityDoubles(l.total, n - 1);
    }
  }

  /** The result of read_all, from a buffer that is not empty: -1 exactly when its first fill gave up; otherwise what
      the fills completed before the one that gave up, or the whole stream if none gave up. */
  lemma ResultOf(size: nat, left: nat, outcomes: seq<Outcome>, n: nat, end: End)
    requires size > 0 && Comes(Start(size, left, outcomes), n, end)
    ensures end.total == -1 <==> NextFill(Start(size, left, outcomes)).gaveUp
    ensures end.gaveUp && n == 0 <==> NextFill(Start(size, left, outcomes)).gaveUp
    ensures end.gaveUp && n > 0 ==> end.total == Capacity(size, n - 1) <= left
    ensures !end.gaveUp ==> end.total == left
  {
    var l := Start(size, left, outcomes);
    FillTakesAll(left, outcomes, size, 0);
    if n > 0 {
      DoublesOn(OneTurn(l).next, n - 1, end);
    }
  }

  /* When the loop ends */

  // With space to fill every turn that goes on takes something from the stream.
  lemma {:induction false} FullTurnsEnd(l: Loop) returns (n: nat, end: End)
    requires l.fill > 0 && l.size > 0
    ensures Comes(l, n, end)
    decreases l.left
  {
    if OneTurn(l).Ends? {
      n, end := 0, OneTurn(l).end;
    } else {
      n, end := FullTurnsEnd(OneTurn(l).next);
      n := n + 1;
    }
  }

  // Without space, a call that is neither interrupted nor fails completes a fill: some call fails, or 51 in a row
  // are interrupted.
  predicate SomeFillGivesUp(outcomes: seq<Outcome>, interruptions: nat) {
    outcomes != [] &&
    match outcomes[0]
    case Failed => true
    case Interrupted => interruptions >= 50 || SomeFillGivesUp(outcomes[1..], interruptions + 1)
    case Upto(_) => SomeFillGivesUp(outcomes[1..], 0)
  }

  lemma {:induction false} EmptyFill(left: nat, outcomes: seq<Outcome>, interruptions: nat)
    ensures var f := FillFrom(left, outcomes, 0, interruptions);
            && f.count == 0 && (!f.gaveUp && outcomes != [] ==> |f.rest| < |outcomes|)
            && (SomeFillGivesUp(outcomes, interruptions) <==> f.gaveUp || SomeFillGivesUp(f.rest, 0))
  {
    if outcomes != [] && outcomes[0].Interrupted? && interruptions < 50 {
      EmptyFill(left, outcomes[1..], interruptions + 1);
    }
  }

  lemma EmptyTurn(left: nat, outcomes: seq<Outcome>)
    ensures var f := NextFill(Start(0, left, outcomes));
            OneTurn(Start(0, left, outcomes)) == if f.gaveUp then Ends(End(-1, true)) else Grows(Start(0, left, f.rest))
  {
    EmptyFill(left, outcomes, 0);
  }

  lemma {:induction false} EmptyTurnsEnd(left: nat, outcomes: seq<Outcome>) returns (n: nat)
    requires SomeFillGivesUp(outcomes, 0)
    ensures Comes(Start(0, left, outcomes), n, End(-1, true))
    decreases |outcomes|
  {
    var f := NextFill(Start(0, left, outcomes));
    EmptyFill(left, outcomes, 0);
    EmptyTurn(left, outcomes);
    if f.gaveUp {
      n := 0;
    } else {
      n := EmptyTurnsEnd(left, f.rest);
      n := n + 1;
    }
  }

  lemma {:induction false} EmptyTurnsComeTo(left: nat, outcomes: seq<Outcome>, n: nat, end: End)
    requires Comes(Start(0, left, outcomes), n, end)
    ensures SomeFillGivesUp(outcomes, 0) && end == End(-1, true)
    decreases n
  {
    EmptyFill(left, outcomes, 0);
    EmptyTurn(left, outcomes);
    if n > 0 {
      EmptyTurnsComeTo(left, NextFill(Start(0, left, outcomes)).rest, n - 1, end);
    }
  }

  /** read_all returns exactly when its buffer is not empty, or some fill of the empty buffer gives up. */
  lemma LoopEnds(size: nat, left: nat, outcomes: seq<Outcome>)
    ensures Returns(Start(size, left, outcomes)) <==> size > 0 || SomeFillGivesUp(outcomes, 0)
  {
    var l := Start(size, left, outcomes);
    if size > 0 {
      var n, end := FullTurnsEnd(l);
    } else if SomeFillGivesUp(outcomes, 0) {
      var n := EmptyTurnsEnd(left, outcomes);
      assert Comes(l, n, End(-1, true));
    } else if Returns(l) {
      var n, end :| Comes(l, n, end);
      EmptyTurnsComeTo(left, outcomes, n, end);
    }
  }

  method Resize(buf: array<Byte>, size: nat) returns (bigger: array<Byte>)
    requires size >= buf.Length
    ensures fresh(bigger) && bigger.Length == size && bigger[..buf.Length] == buf[..]
  {
    bigger := new Byte[size](_ => 0);
    for i := 0 to buf.Length
      invariant bigger[..i] == buf[..i]
    {
      bigger[i] := buf[i];
    }
  }

  lemma Joined(data: seq<Byte>, buf: seq<Byte>, n: nat, k: nat)
    requires n + k <= |data| && n + k <= |buf|
    requires buf[..n] == data[..n] && buf[n..n + k] == data[n..][..k]
    ensures buf[..n + k] == data[..n + k] && data[n..][k..] == data[n + k..]
  {
    assert buf[..n + k] == buf[..n] + buf[n..n + k];
    assert data[..n + k] == data[..n] + data[n..][..k];
  }

  // The buffer's first `total` bytes are what was read from `data`, and the stream holds the rest.
  ghost predicate Holds(data: seq<Byte>, buf: seq<Byte>, total: int, left: seq<Byte>) {
    0 <= total <= |data| && total <= |buf| && buf[..total] == data[..total] && left == data[total..]
  }

  // The body of the loop; `ended` where it leaves the loop or, with -1, the function.
  method FillAndGrow(fp: Source, buf: array<Byte>, totalRead: int32, space: int32, ghost data: seq<Byte>)
    returns (bigger: array<Byte>, total: int32, fill: int32, ended: bool)
    requires Holds(data, buf[..], totalRead, fp.data) && |data| <= INT_MAX
    requires 0 <= space == buf.Length - totalRead
    modifies fp, buf
    ensures bigger == buf || fresh(bigger)
    ensures var turn := old(OneTurn(Loop(buf.Length, totalRead, space, |fp.data|, fp.outcomes)));
            if ended then turn.Ends? && turn.end.total == total && bigger == buf
            else
              && total >= 0 && fill >= 0 && bigger.Length == 2 * buf.Length
              && turn == Grows(Loop(bigger.Length, total, fill, |fp.data|, fp.outcomes))
    ensures total != -1 ==>
              Holds(data, bigger[..], total, fp.data) || (ended && Holds(data, bigger[..], total, old(fp.data)))
  {
    bigger, total, fill := buf, totalRead, space;
    var got := ReadAtMostN(fp, buf, total, fill);
    if got == -1 {
      assert buf[..][..total] == old(buf[..])[..total];
      return buf, if total == 0 then -1 else total, fill, true;
    }
    Joined(data, buf[..], total, got);
    total := total + got;
    ended := got != fill;
    if ended {
      fill := fill - got;
    } else {
      var size := buf.Length;
      bigger := Resize(buf, 2 * size);
      fill := 2 * size - size;
    }
  }

  // The loop, given how many turns it goes on for.
  method FillAll(fp: Source, initial: array<Byte>, ghost turns: nat, ghost end: End)
    returns (total: int32, buf: array<Byte>)
    requires initial.Length <= INT_MAX && |fp.data| <= INT_MAX
    requires Comes(Start(initial.Length, |fp.data|, fp.outcomes), turns, end)
    modifies fp, initial
    ensures buf == initial || fresh(buf)
    ensures total == end.total
    ensures total != -1 ==> 0 <= total <= |old(fp.data)| && total <= buf.Length && buf[..total] == old(fp.data)[..total]
  {
    ghost var data, togo := fp.data, turns;
    var fill: int32, ended := initial.Length, false;
    total, buf := 0, initial;
    while !ended
      invariant buf == initial || fresh(buf)
      invariant if ended then total == end.total
                else 0 <= total && 0 <= fill == buf.Length - total && Holds(data, buf[..], total, fp.data)
                     && Comes(Loop(buf.Length, total, fill, |fp.data|, fp.outcomes), togo, end)
      invariant total != -1 ==> 0 <= total <= |data| && total <= buf.Length && buf[..total] == data[..total]
      decreases togo, !ended
    {
      buf, total, fill, ended := FillAndGrow(fp, buf, total, fill, data);
      if !ended {
        togo := togo - 1;
      }
    }
  }

  /** read_all, wherever it returns; `contents` is what the buffer holds then, `turns` how many fills it completed, and
      `end` how it ended. At the end of the stream the buffer is the whole stream; after an error it is exactly what the
      fills completed before it brought, and the result is -1 exactly if there were none. */
  method ReadEverything(fp: Source, initial: array<Byte>)
    returns (total: int32, contents: seq<Byte>, ghost turns: nat, ghost end: End)
    requires initial.Length <= INT_MAX && |fp.data| <= INT_MAX
    requires initial.Length > 0 || SomeFillGivesUp(fp.outcomes, 0)
    modifies fp, initial
    ensures Comes(old(Start(initial.Length, |fp.data|, fp.outcomes)), turns, end) && total == end.total
    ensures total == -1 <==> initial.Length == 0 || (end.gaveUp && turns == 0)
    ensures total != -1 ==> total == if end.gaveUp then Capacity(initial.Length, turns - 1) else |old(fp.data)|
    ensures total != -1 ==> total <= |old(fp.data)| && contents == old(fp.data)[..total]
  {
    ghost var l := Start(initial.Length, |fp.data|, fp.outcomes);
    LoopEnds(l.size, l.left, l.outcomes);
    turns, end :| Comes(l, turns, end);
    var buf;
    total, buf := FillAll(fp, initial, turns, end);
    contents := if total == -1 then buf[..] else buf[..total];
    if l.size > 0 {
      ResultOf(l.size, l.left, l.outcomes, turns, end);
    } else {
      EmptyTurnsComeTo(l.left, l.outcomes, turns, end);
    }
  }
}
