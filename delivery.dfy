/**
  What a broadcast delivers, stated on values: the outboxes of the
  registered clients, keyed by client identity. `Fanout` is the effect of
  one broadcast; a trace of broadcasts over an unchanged registry is a
  fold of `Fanout`, and the lemmas below say what every recipient ends up
  holding, including the per-sender ordering of what it receives.
 */
module Delivery {

  import opened Messages

  /** The outbox (lines written to the socket so far) of each registered client. */
  type Outboxes = map<string, seq<string>>

  /** How many times `x` occurs in `s`. */
  function Count(s: seq<string>, x: string): nat
  {
    multiset(s)[x]
  }

  /**
    One broadcast of `message` by `sender`: the sender's own outbox is left
    alone, and every other registered client gets exactly one more copy of
    `message`, after everything it already had.
   */
  function Fanout(boxes: Outboxes, sender: string, message: string): (r: Outboxes)
    ensures r.Keys == boxes.Keys
    ensures sender in boxes ==> r[sender] == boxes[sender]
    ensures forall k :: k in boxes && k != sender ==>
              && |r[k]| == |boxes[k]| + 1
              && r[k][..|boxes[k]|] == boxes[k]
  {
    var r := map k | k in boxes :: if k == sender then boxes[k] else boxes[k] + [message];
    assert forall k :: k in boxes && k != sender ==> r[k][..|boxes[k]|] == boxes[k];
    r
  }

  /**
    `Fanout` is the only way to relay a broadcast: outboxes that changed
    exactly as described (the sender's untouched, every other one extended
    by the message) are the result of `Fanout`.
   */
  lemma FanoutDetermined(before: Outboxes, after: Outboxes, sender: string, message: string)
    requires after.Keys == before.Keys
    requires forall k :: k in before ==> after[k] == if k == sender then before[k] else before[k] + [message]
    ensures after == Fanout(before, sender, message)
  {
  }

  /**
    A broadcast adds exactly one copy of the message to every outbox but
    the sender's, and none to the sender's.
   */
  lemma FanoutCopies(boxes: Outboxes, sender: string, message: string, k: string)
    requires k in boxes
    ensures Count(Fanout(boxes, sender, message)[k], message)
            == Count(boxes[k], message) + (if k == sender then 0 else 1)
  {
  }

  /** One line read and relayed by the session of client `sender`. */
  datatype Said = Said(sender: string, line: string)

  /** The lines `lines` read by one session, as a trace of that session's broadcasts. */
  function SessionTrace(id: string, lines: seq<string>): seq<Said>
  {
    seq(|lines|, i requires 0 <= i < |lines| => Said(id, lines[i]))
  }

  /** The outboxes after the broadcasts of `trace`, in order, with no client joining or leaving. */
  function ApplyTrace(boxes: Outboxes, trace: seq<Said>): (r: Outboxes)
    ensures r.Keys == boxes.Keys
    decreases |trace|
  {
    if trace == [] then boxes
    else ApplyTrace(Fanout(boxes, trace[0].sender, Format(trace[0].sender, trace[0].line)), trace[1..])
  }

  /** The messages client `r` is sent during `trace`, in order. */
  function Received(trace: seq<Said>, r: string): seq<string>
    decreases |trace|
  {
    if trace == [] then []
    else (if trace[0].sender == r then [] else [Format(trace[0].sender, trace[0].line)])
         + Received(trace[1..], r)
  }

  /** The lines client `s` said during `trace`, in order. */
  function SaidBy(trace: seq<Said>, s: string): seq<string>
    decreases |trace|
  {
    if trace == [] then []
    else (if trace[0].sender == s then [trace[0].line] else []) + SaidBy(trace[1..], s)
  }

  /** The line carried by message `m` if `m` is attributed to client `s`. */
  function LineFrom(m: string, s: string): seq<string>
  {
    var p := Parse(m);
    if p.Some? && p.value.0 == s then [p.value.1] else []
  }

  /** The lines of the messages in `msgs` that are attributed to client `s`, in order. */
  function LinesFrom(msgs: seq<string>, s: string): seq<string>
    decreases |msgs|
  {
    if msgs == [] then [] else LineFrom(msgs[0], s) + LinesFrom(msgs[1..], s)
  }

  predicate AttributableSenders(trace: seq<Said>)
  {
    forall i :: 0 <= i < |trace| ==> ':' !in trace[i].sender
  }

  /**
    Broadcasts whose senders all carry generated (UUID-shaped) identities
    meet the premise of the attribution and ordering lemmas below.
   */
  lemma UuidSendersAttributable(trace: seq<Said>)
    requires forall i :: 0 <= i < |trace| ==> IsUuidText(trace[i].sender)
    ensures AttributableSenders(trace)
  {
    forall i | 0 <= i < |trace| ensures ':' !in trace[i].sender {
      UuidTextAttributable(trace[i].sender);
    }
  }

  /** In particular the trace of one session with a generated identity. */
  lemma UuidSessionAttributable(id: string, lines: seq<string>)
    requires IsUuidText(id)
    ensures AttributableSenders(SessionTrace(id, lines))
  {
    UuidSendersAttributable(SessionTrace(id, lines));
  }

  /**
    After a trace of broadcasts, every registered client holds what it held
    before followed by exactly the messages of the other senders, in the
    order they were broadcast.
   */
  lemma {:induction false} TraceDelivery(boxes: Outboxes, trace: seq<Said>, r: string)
    requires r in boxes
    ensures ApplyTrace(boxes, trace)[r] == boxes[r] + Received(trace, r)
    decreases |trace|
  {
    if trace != [] {
      var e := trace[0];
      var next := Fanout(boxes, e.sender, Format(e.sender, e.line));
      assert ApplyTrace(boxes, trace) == ApplyTrace(next, trace[1..]);
      TraceDelivery(next, trace[1..], r);
      if e.sender != r {
        assert next[r] == boxes[r] + [Format(e.sender, e.line)];
      }
    }
  }

  lemma {:induction false} LinesFromConcat(a: seq<string>, b: seq<string>, s: string)
    ensures LinesFrom(a + b, s) == LinesFrom(a, s) + LinesFrom(b, s)
    decreases |a|
  {
    if a != [] {
      assert (a + b)[0] == a[0];
      assert (a + b)[1..] == a[1..] + b;
      LinesFromConcat(a[1..], b, s);
      var head := LineFrom(a[0], s);
      assert LinesFrom(a + b, s) == head + LinesFrom(a[1..] + b, s);
      assert head + (LinesFrom(a[1..], s) + LinesFrom(b, s))
          == (head + LinesFrom(a[1..], s)) + LinesFrom(b, s);
    } else {
      assert a + b == b;
    }
  }

  /**
    Among the messages client `r` is sent, those attributed to client `s`
    carry exactly the lines `s` said, in the order `s` said them; none are
    attributed to `r` itself, so a client never hears its own lines back.
   */
  lemma {:induction false} PerSenderOrder(trace: seq<Said>, r: string, s: string)
    requires AttributableSenders(trace)
    ensures LinesFrom(Received(trace, r), s) == if r == s then [] else SaidBy(trace, s)
    decreases |trace|
  {
    if trace != [] {
      var e := trace[0];
      assert AttributableSenders(trace[1..]) by {
        forall i | 0 <= i < |trace[1..]| ensures ':' !in trace[1..][i].sender {
          assert trace[1..][i] == trace[i + 1];
        }
      }
      PerSenderOrder(trace[1..], r, s);
      var head := if e.sender == r then [] else [Format(e.sender, e.line)];
      LinesFromConcat(head, Received(trace[1..], r), s);
      if e.sender != r {
        ParseFormat(e.sender, e.line);
        assert LineFrom(head[0], s) == if e.sender == s then [e.line] else [];
        assert LinesFrom(head, s) == LineFrom(head[0], s);
      }
    }
  }

  /**
    The ordering guarantee for one recipient: whatever interleaving of
    senders a trace holds, the lines client `r` receives from another
    client `s` arrive after what `r` already had, in exactly the order `s`
    said them, and nothing `r` says is ever sent back to `r`.
   */
  lemma RecipientSeesSenderInOrder(boxes: Outboxes, trace: seq<Said>, r: string, s: string)
    requires r in boxes
    requires AttributableSenders(trace)
    ensures LinesFrom(ApplyTrace(boxes, trace)[r], s)
            == LinesFrom(boxes[r], s) + (if r == s then [] else SaidBy(trace, s))
  {
    TraceDelivery(boxes, trace, r);
    LinesFromConcat(boxes[r], Received(trace, r), s);
    PerSenderOrder(trace, r, s);
  }

  /**
    A single session that reads `lines` delivers to every other client
    exactly the formatted lines, in read order; the session's own client
    is sent nothing.
   */
  lemma {:induction false} SessionReceived(id: string, lines: seq<string>, r: string)
    ensures Received(SessionTrace(id, lines), r) == if r == id then [] else Formatted(id, lines)
    decreases |lines|
  {
    if lines != [] {
      var t := SessionTrace(id, lines);
      assert t[1..] == SessionTrace(id, lines[1..]);
      SessionReceived(id, lines[1..], r);
      if r != id {
        assert Formatted(id, lines) == [Format(id, lines[0])] + Formatted(id, lines[1..]);
      }
    }
  }
}
