/** Finding messages in a byte stream that arrives in chunks: the receiving loop of the
    agent, and the split of the whole stream that it has to agree with. */
module Framing {
  import opened Traces
  import opened JsonText

  // ---------------------------------------------------------------------------
  // The reference: split the whole stream at NUL

  /** All pieces between NULs, empty ones included; the last one is not terminated. */
  function Pieces(s: string): (ps: seq<string>)
    ensures |ps| > 0
    ensures forall p :: p in ps ==> NulFree(p)
  {
    if s == "" then [""]
    else if s[0] == NUL then [""] + Pieces(s[1..])
    else
      var ps := Pieces(s[1..]);
      assert NulFree(ps[0]) && forall p :: p in ps[1..] ==> p in ps;
      [[s[0]] + ps[0]] + ps[1..]
  }

  /** The messages a stream has completed, and the bytes of the one it has begun. */
  function Complete(s: string): seq<string> {
    Pieces(s)[..|Pieces(s)| - 1]
  }

  function Begun(s: string): string {
    Pieces(s)[|Pieces(s)| - 1]
  }

  ghost predicate NoneEmpty(messages: seq<string>) {
    forall i :: 0 <= i < |messages| ==> messages[i] != ""
  }

  function BeforeStop(messages: seq<string>): (r: seq<string>)
    ensures "stop" !in r && r <= messages
    ensures "stop" !in messages ==> r == messages
  {
    if messages == [] || messages[0] == "stop" then []
    else [messages[0]] + BeforeStop(messages[1..])
  }

  /** What the sender puts on the wire. */
  function Frames(messages: seq<string>): string {
    if messages == [] then "" else messages[0] + [NUL] + Frames(messages[1..])
  }

  // ---------------------------------------------------------------------------
  // Ruby's split: like Pieces, but trailing empty strings are dropped

  function DropTrailingEmpty(ps: seq<string>): seq<string> {
    if ps != [] && ps[|ps| - 1] == "" then DropTrailingEmpty(ps[..|ps| - 1]) else ps
  }

  function Split(s: string): seq<string> {
    DropTrailingEmpty(Pieces(s))
  }

  predicate EndsWithNul(s: string) {
    s != "" && s[|s| - 1] == NUL
  }

  // ---------------------------------------------------------------------------
  // One round of the loop

  datatype Status = Running | Stopped | Raised

  /** The state of the loop: the carried beginning of a message, the messages handed on to
      the decoder so far, and whether the thread is still running. */
  datatype Loop = Loop(pending: Option<string>, handled: seq<string>, status: Status)

  const INITIAL := Loop(None, [], Running)

  function Wrap(messages: seq<string>): (r: seq<Option<string>>)
    ensures |r| == |messages|
    ensures forall i :: 0 <= i < |r| ==> r[i] == Some(messages[i])
  {
    seq(|messages|, i requires 0 <= i < |messages| => Some(messages[i]))
  }

  /** The messages of one chunk and the new carry. A `None` among the messages is the nil
      that an empty split leaves in `last_message`. */
  function Reframe(pending: Option<string>, chunk: string): (seq<Option<string>>, Option<string>) {
    var parts := Split(chunk);
    var messages := if parts == [] then [] else Wrap(parts[..|parts| - 1]);
    var last := if parts == [] then None else Some(parts[|parts| - 1]);
    var joined :=
      match pending
      case None => (messages, last)
      case Some(p) =>
        if messages == [] then (messages, Some(p + (if last.Some? then last.value else "")))
        else (Wrap(Split(p + messages[0].value)) + messages[1..], last);
    if EndsWithNul(chunk) then (joined.0 + [joined.1], None) else (joined.0, joined.1)
  }

  function Handle(handled: seq<string>, messages: seq<Option<string>>): (seq<string>, Status)
    decreases |messages|
  {
    if messages == [] then (handled, Running)
    else if messages[0] == Some("stop") then (handled, Stopped)
    else if messages[0] == None then (handled, Raised)
    else Handle(handled + [messages[0].value], messages[1..])
  }

  /** One round; a thread that has returned or raised reads nothing more. */
  function Round(l: Loop, chunk: string): Loop {
    if l.status != Running then l else
    var (messages, pending) := Reframe(l.pending, chunk);
    var (handled, status) := Handle(l.handled, messages);
    Loop(pending, handled, status)
  }

  function Rounds(l: Loop, chunks: seq<string>): Loop
    decreases |chunks|
  {
    if chunks == [] then l else Rounds(Round(l, chunks[0]), chunks[1..])
  }

  /** The loop as it runs, updating its carry and its list of messages in place. */
  class Connection {
    var pending: Option<string>
    var handled: seq<string>
    var status: Status

    ghost function State(): Loop
      reads this
    {
      Loop(pending, handled, status)
    }

    constructor ()
      ensures State() == INITIAL
    {
      pending, handled, status := None, [], Running;
    }

    /** Frames a chunk: returns the complete messages and updates the carry. */
    method TakeMessages(chunk: string) returns (messages: seq<Option<string>>)
      modifies this`pending
      ensures (messages, pending) == Reframe(old(pending), chunk)
    {
      var parts := Split(chunk);
      var last: Option<string> := None;
      messages := [];
      if parts != [] {
        messages, last := Wrap(parts[..|parts| - 1]), Some(parts[|parts| - 1]);
      }
      if pending.Some? {
        if messages == [] {
          last := Some(pending.value + (if last.Some? then last.value else ""));
        } else {
          var first := messages[0].value;
          messages := messages[1..];
          messages := Wrap(Split(pending.value + first)) + messages;
        }
        pending := None;
      }
      if EndsWithNul(chunk) {
        messages := messages + [last];
      } else {
        pending := last;
      }
    }

    /** Hands messages on until `stop`; a nil message makes the JSON parser raise. */
    method HandleMessages(messages: seq<Option<string>>)
      requires status == Running
      modifies this`handled, this`status
      ensures (handled, status) == Handle(old(handled), messages)
    {
      for i := 0 to |messages|
        invariant status == Running
        invariant Handle(old(handled), messages) == Handle(handled, messages[i..])
      {
        assert messages[i..][1..] == messages[i + 1..];
        if messages[i] == Some("stop") {
          status := Stopped;
          return;
        }
        if messages[i] == None {
          status := Raised;
          return;
        }
        handled := handled + [messages[i].value];
      }
    }

    method Receive(chunk: string)
      requires status == Running
      modifies this
      ensures State() == Round(old(State()), chunk)
    {
      var messages := TakeMessages(chunk);
      HandleMessages(messages);
    }
  }

  // ---------------------------------------------------------------------------
  // Splitting and concatenation

  /** Joins the last of some pieces to the first of others. */
  function Glue(ps: seq<string>, qs: seq<string>): seq<string>
    requires ps != [] && qs != []
  {
    ps[..|ps| - 1] + [ps[|ps| - 1] + qs[0]] + qs[1..]
  }

  lemma GlueBehind(p: string, ps: seq<string>, qs: seq<string>)
    requires ps != [] && qs != []
    ensures Glue([p] + ps, qs) == [p] + Glue(ps, qs)
  {
  }

  /** A byte in front of a stream. */
  lemma PiecesOfCons(b: char, s: string)
    ensures Pieces([b] + s) ==
            if b == NUL then [""] + Pieces(s) else [[b] + Pieces(s)[0]] + Pieces(s)[1..]
  {
    assert ([b] + s)[1..] == s;
  }

  lemma GlueInFirst(b: char, ps: seq<string>, qs: seq<string>)
    requires ps != [] && qs != []
    ensures
      var glued := Glue(ps, qs);
      Glue([[b] + ps[0]] + ps[1..], qs) == [[b] + glued[0]] + glued[1..]
  {
    if |ps| == 1 {
      assert ([b] + ps[0]) + qs[0] == [b] + (ps[0] + qs[0]);
    } else {
      GlueBehind([b] + ps[0], ps[1..], qs);
      GlueBehind(ps[0], ps[1..], qs);
      assert [ps[0]] + ps[1..] == ps;
    }
  }

  /** Gluing two streams joins the message begun by the first to the first piece of the
      second. */
  lemma {:induction false} PiecesOfConcat(s: string, t: string)
    ensures Pieces(s + t) == Glue(Pieces(s), Pieces(t))
  {
    hide Pieces;
    if s == "" {
      NothingFramed();
      assert s + t == t && "" + Pieces(t)[0] == Pieces(t)[0];
    } else {
      hide Glue;
      assert s == [s[0]] + s[1..] && s + t == [s[0]] + (s[1..] + t);
      PiecesOfCons(s[0], s[1..]);
      PiecesOfCons(s[0], s[1..] + t);
      PiecesOfConcat(s[1..], t);
      if s[0] == NUL {
        GlueBehind("", Pieces(s[1..]), Pieces(t));
      } else {
        GlueInFirst(s[0], Pieces(s[1..]), Pieces(t));
      }
    }
  }

  lemma {:induction false} PiecesOfNulFree(s: string)
    requires NulFree(s)
    ensures Pieces(s) == [s]
  {
    if s != "" {
      PiecesOfNulFree(s[1..]);
      assert [s[0]] + s[1..] == s;
    }
  }

  lemma {:induction false} BegunIsEmptyAfterNul(s: string)
    ensures Begun(s) == "" <==> s == "" || EndsWithNul(s)
  {
    if s != "" {
      BegunIsEmptyAfterNul(s[1..]);
      if s[1..] == "" {
        assert Pieces(s[1..]) == [""];
      } else {
        assert EndsWithNul(s) == EndsWithNul(s[1..]);
      }
    }
  }

  lemma {:induction false} FirstFrame(message: string, rest: string)
    requires NulFree(message)
    ensures Pieces(message + ([NUL] + rest)) == [message] + Pieces(rest)
  {
    PiecesOfNulFree(message);
    PiecesOfConcat(message, [NUL] + rest);
    assert ([NUL] + rest)[1..] == rest;
    assert message + "" == message;
  }

  lemma NothingFramed()
    ensures Pieces("") == [""]
  {
  }

  /** The whole-stream split recovers the messages that were framed. */
  lemma {:induction false} SplitOfFrames(messages: seq<string>)
    requires forall i :: 0 <= i < |messages| ==> NulFree(messages[i])
    ensures Complete(Frames(messages)) == messages && Begun(Frames(messages)) == ""
  {
    hide Pieces;
    if messages != [] {
      var rest := Frames(messages[1..]);
      SplitOfFrames(messages[1..]);
      FirstFrame(messages[0], rest);
      assert Frames(messages) == messages[0] + ([NUL] + rest);
      assert [messages[0]] + messages[1..] == messages;
    } else {
      NothingFramed();
    }
  }

  // ---------------------------------------------------------------------------
  // One round against the reference

  function Carry(begun: string): Option<string> {
    if begun == "" then None else Some(begun)
  }

  function Carried(pending: Option<string>): string {
    match pending
    case None => ""
    case Some(p) => p
  }

  ghost predicate GoodCarry(pending: Option<string>) {
    pending.Some? ==> pending.value != "" && NulFree(pending.value)
  }

  /** The only loss: a chunk that ends right behind an empty message. */
  ghost predicate EndsInEmptyMessage(whole: string) {
    EndsWithNul(whole) && Complete(whole) != [] && Complete(whole)[|Complete(whole)| - 1] == ""
  }

  /** The pieces of the carry and the chunk together. */
  lemma CarriedPieces(pending: Option<string>, chunk: string)
    requires GoodCarry(pending)
    ensures Pieces(Carried(pending) + chunk) == [Carried(pending) + Pieces(chunk)[0]] + Pieces(chunk)[1..]
  {
    var p := Carried(pending);
    PiecesOfNulFree(p);
    PiecesOfConcat(p, chunk);
  }

  /** A round frames what it carried and what it read exactly as the whole-stream split
      does, if and only if the read does not end in an empty message. */
  lemma RoundAgreesWithSplit(pending: Option<string>, chunk: string)
    requires GoodCarry(pending) && chunk != ""
    ensures Reframe(pending, chunk)
         == (Wrap(Complete(Carried(pending) + chunk)), Carry(Begun(Carried(pending) + chunk)))
       <==> !EndsInEmptyMessage(Carried(pending) + chunk)
  {
    var p := Carried(pending);
    var whole := p + chunk;
    var ps := Pieces(chunk);
    CarriedPieces(pending, chunk);
    BegunIsEmptyAfterNul(chunk);
    BegunIsEmptyAfterNul(whole);
    assert EndsWithNul(whole) == EndsWithNul(chunk);
    if !EndsWithNul(chunk) {
      assert Split(chunk) == ps;
      OpenRound(pending, chunk);
    } else {
      ClosedRound(pending, chunk);
    }
  }

  lemma JoinCarry(p: string, q: string)
    requires p != "" && NulFree(p) && NulFree(q)
    ensures Split(p + q) == [p + q]
  {
    PiecesOfNulFree(p + q);
  }

  /** A round whose split loses nothing. */
  lemma LosslessRound(pending: Option<string>, chunk: string, parts: seq<string>)
    requires GoodCarry(pending) && parts != [] && Split(chunk) == parts
    requires forall q :: q in parts ==> NulFree(q)
    ensures
      var whole := [Carried(pending) + parts[0]] + parts[1..];
      Reframe(pending, chunk) ==
        if EndsWithNul(chunk) then (Wrap(whole), None)
        else (Wrap(whole[..|whole| - 1]), Some(whole[|whole| - 1]))
  {
    var whole := [Carried(pending) + parts[0]] + parts[1..];
    if pending.None? {
      assert "" + parts[0] == parts[0];
      assert whole == parts;
    } else if |parts| > 1 {
      JoinCarry(pending.value, parts[0]);
      var left := Wrap([whole[0]]) + Wrap(parts[..|parts| - 1])[1..];
      var right := Wrap(whole[..|whole| - 1]);
      forall k | 0 <= k < |right|
        ensures left[k] == right[k]
      {
        assert whole[k] == if k == 0 then whole[0] else parts[k];
      }
      assert left == right;
    }
    assert Wrap(whole[..|whole| - 1]) + [Some(whole[|whole| - 1])] == Wrap(whole);
  }

  lemma OpenRound(pending: Option<string>, chunk: string)
    requires GoodCarry(pending) && chunk != "" && !EndsWithNul(chunk)
    ensures Reframe(pending, chunk)
         == (Wrap(Complete(Carried(pending) + chunk)), Carry(Begun(Carried(pending) + chunk)))
  {
    CarriedPieces(pending, chunk);
    BegunIsEmptyAfterNul(chunk);
    LosslessRound(pending, chunk, Pieces(chunk));
  }

  lemma ClosedRound(pending: Option<string>, chunk: string)
    requires GoodCarry(pending) && EndsWithNul(chunk)
    ensures Reframe(pending, chunk) == (Wrap(Complete(Carried(pending) + chunk)), None)
       <==> !EndsInEmptyMessage(Carried(pending) + chunk)
    ensures Begun(Carried(pending) + chunk) == ""
  {
    hide Pieces, Reframe, Wrap, DropTrailingEmpty;
    var n := |Pieces(chunk)| - 1;
    BegunIsEmptyAfterNul(Carried(pending) + chunk);
    NulEndsPieces(chunk);
    if Pieces(chunk)[n - 1] != "" {
      LosslessClosedRound(pending, chunk);
    } else {
      SplitShortens(Pieces(chunk));
      ShortRound(pending, chunk);
    }
  }

  lemma SplitShortens(ps: seq<string>)
    requires |ps| >= 2 && ps[|ps| - 1] == "" && ps[|ps| - 2] == ""
    ensures |DropTrailingEmpty(ps)| <= |ps| - 2 && DropTrailingEmpty(ps) <= ps
  {
    var n := |ps| - 1;
    assert ps[..n][..n - 1] == ps[..n - 1];
    assert DropTrailingEmpty(ps) == DropTrailingEmpty(ps[..n]) == DropTrailingEmpty(ps[..n - 1]);
    DroppingShortens(ps[..n - 1]);
  }

  lemma LosslessClosedRound(pending: Option<string>, chunk: string)
    requires GoodCarry(pending) && EndsWithNul(chunk)
    requires |Pieces(chunk)| >= 2 && Pieces(chunk)[|Pieces(chunk)| - 1] == ""
    requires Pieces(chunk)[|Pieces(chunk)| - 2] != ""
    ensures Reframe(pending, chunk) == (Wrap(Complete(Carried(pending) + chunk)), None)
    ensures !EndsInEmptyMessage(Carried(pending) + chunk)
  {
    hide Pieces, Reframe, Wrap;
    var p, ps := Carried(pending), Pieces(chunk);
    var n := |ps| - 1;
    CarriedPieces(pending, chunk);
    assert DropTrailingEmpty(ps[..n]) == ps[..n];
    assert Split(chunk) == ps[..n];
    LosslessRound(pending, chunk, ps[..n]);
    assert Complete(p + chunk) == [p + ps[0]] + ps[..n][1..];
    assert |p + ps[0]| == |p| + |ps[0]|;
  }

  ghost predicate AllEmpty(messages: seq<string>) {
    forall i :: 0 <= i < |messages| ==> messages[i] == ""
  }

  lemma {:induction false} DroppingShortens(ps: seq<string>)
    ensures DropTrailingEmpty(ps) <= ps
    ensures AllEmpty(ps[|DropTrailingEmpty(ps)|..])
  {
    if ps != [] && ps[|ps| - 1] == "" {
      DroppingShortens(ps[..|ps| - 1]);
      forall i | |DropTrailingEmpty(ps)| <= i < |ps|
        ensures ps[i] == ""
      {
        assert i < |ps| - 1 ==> ps[..|ps| - 1][|DropTrailingEmpty(ps)|..][i - |DropTrailingEmpty(ps)|] == "";
      }
    }
  }

  /** A round that loses at least one empty message at its end. */
  lemma {:induction false} ShortRound(pending: Option<string>, chunk: string)
    requires GoodCarry(pending) && EndsWithNul(chunk)
    requires |Pieces(chunk)| >= 2 && Pieces(chunk)[|Pieces(chunk)| - 2] == ""
    requires |Split(chunk)| <= |Pieces(chunk)| - 2 && Split(chunk) <= Pieces(chunk)
    ensures Reframe(pending, chunk) == (Wrap(Complete(Carried(pending) + chunk)), None)
       <==> !EndsInEmptyMessage(Carried(pending) + chunk)
  {
    hide Pieces, Split, Frames, Handle;
    var p, ps := Carried(pending), Pieces(chunk);
    CarriedPieces(pending, chunk);
    BegunIsEmptyAfterNul(p + chunk);
    var complete := Complete(p + chunk);
    assert |complete| == |ps| - 1;
    var messages := Reframe(pending, chunk).0;
    if |ps| == 2 {
      assert complete == [p + ""];
      assert p + "" == p;
      assert Split(chunk) == [];
      assert messages == [pending];
      assert Wrap(complete) == [Some(p)];
    } else {
      if pending.Some? && |Split(chunk)| > 1 {
        JoinCarry(p, Split(chunk)[0]);
      }
      assert |messages| < |complete|;
    }
  }

  // ---------------------------------------------------------------------------
  // Whole runs

  /** The state the loop is in once it has read the stream `s`, however it was cut. */
  ghost predicate Reflects(l: Loop, s: string) {
    if "stop" in Complete(s) then
      l.status == Stopped && l.handled == BeforeStop(Complete(s))
    else
      l == Loop(Carry(Begun(s)), Complete(s), Running)
  }

  lemma {:induction false} HandleIsBeforeStop(handled: seq<string>, messages: seq<string>)
    ensures Handle(handled, Wrap(messages))
         == (handled + BeforeStop(messages), if "stop" in messages then Stopped else Running)
    decreases |messages|
  {
    if messages == [] {
      assert handled + [] == handled;
    } else {
      assert Wrap(messages)[1..] == Wrap(messages[1..]);
      if messages[0] == "stop" {
        assert handled + [] == handled;
      } else {
        HandleIsBeforeStop(handled + [messages[0]], messages[1..]);
        assert handled + ([messages[0]] + BeforeStop(messages[1..]))
            == (handled + [messages[0]]) + BeforeStop(messages[1..]);
      }
    }
  }

  lemma {:induction false} BeforeStopOfConcat(a: seq<string>, b: seq<string>)
    ensures BeforeStop(a + b) == if "stop" in a then BeforeStop(a) else a + BeforeStop(b)
  {
    if a == [] {
      assert a + b == b;
    } else {
      assert (a + b)[1..] == a[1..] + b;
      BeforeStopOfConcat(a[1..], b);
    }
  }

  /** The completed messages of a longer stream, split at the earlier end. */
  lemma CompleteOfConcat(s: string, t: string)
    ensures Complete(s + t) == Complete(s) + Complete(Begun(s) + t)
    ensures Begun(s + t) == Begun(Begun(s) + t)
  {
    hide Pieces;
    PiecesOfConcat(s, t);
    PiecesOfNulFree(Begun(s));
    PiecesOfConcat(Begun(s), t);
  }

  lemma {:induction false} NulEndsPieces(chunk: string)
    requires EndsWithNul(chunk)
    ensures Pieces(chunk) == Pieces(chunk[..|chunk| - 1]) + [""]
  {
    var front := chunk[..|chunk| - 1];
    assert chunk == front + [NUL];
    PiecesOfConcat(front, [NUL]);
    assert Pieces([NUL]) == ["", ""];
    assert Pieces(front)[|Pieces(front)| - 1] + "" == Pieces(front)[|Pieces(front)| - 1];
  }

  /** What a round hands on when its split drops empty messages at the end of the read. */
  lemma RoundTakesPrefix(pending: Option<string>, chunk: string) returns (messages: seq<string>)
    requires GoodCarry(pending) && EndsWithNul(chunk)
    requires pending.Some? || Split(chunk) != []
    ensures Reframe(pending, chunk) == (Wrap(messages), None)
    ensures
      var complete := Complete(Carried(pending) + chunk);
      messages <= complete && AllEmpty(complete[|messages|..]) && Begun(Carried(pending) + chunk) == ""
  {
    hide Pieces, Handle, DropTrailingEmpty;
    var p, ps, parts := Carried(pending), Pieces(chunk), Split(chunk);
    CarriedPieces(pending, chunk);
    BegunIsEmptyAfterNul(p + chunk);
    NulEndsPieces(chunk);
    DroppingShortens(ps);
    NoneLeftBehind(ps);
    if parts == [] {
      messages := [p];
      assert ps[0] == ps[|parts|..][0] == "";
      assert p + "" == p;
      assert Wrap([p]) == [Some(p)];
      OnlyCarryRound(p, chunk);
      RestIsEmpty(ps, 0, [p] + ps[1..]);
    } else {
      messages := [p + parts[0]] + parts[1..];
      LosslessRound(pending, chunk, parts);
      RestIsEmpty(ps, |parts|, [p + ps[0]] + ps[1..]);
    }
  }

  lemma OnlyCarryRound(p: string, chunk: string)
    requires EndsWithNul(chunk) && Split(chunk) == []
    ensures Reframe(Some(p), chunk) == ([Some(p)], None)
  {
    hide Split;
    var none: seq<Option<string>> := [];
    assert p + "" == p && none + [Some(p)] == [Some(p)];
  }

  lemma NoneLeftBehind(ps: seq<string>)
    ensures ps != [] && ps[|ps| - 1] == "" ==> |DropTrailingEmpty(ps)| < |ps|
  {
    if ps != [] {
      DroppingShortens(ps[..|ps| - 1]);
    }
  }

  lemma RestIsEmpty(ps: seq<string>, n: nat, whole: seq<string>)
    requires n < |ps| == |whole| && AllEmpty(ps[n..]) && ps[1..] == whole[1..]
    ensures
      var from := if n == 0 then 1 else n;
      AllEmpty(whole[..|whole| - 1][if from < |whole| then from else |whole| - 1..])
  {
    var front := whole[..|whole| - 1];
    forall i | 1 <= i < |front| && n <= i
      ensures front[i] == ""
    {
      assert whole[i] == whole[1..][i - 1] == ps[1..][i - 1] == ps[n..][i - n];
    }
  }

  lemma EmptyAreNoStop(messages: seq<string>)
    requires AllEmpty(messages)
    ensures BeforeStop(messages) == messages && (NoneEmpty(messages) ==> messages == [])
  {
    forall i | 0 <= i < |messages|
      ensures messages[i] != "stop"
    {
    }
  }

  lemma OnlyEmptyRead(chunk: string)
    requires EndsWithNul(chunk) && Split(chunk) == []
    ensures !NoneEmpty(BeforeStop(Complete(chunk)))
  {
    var ps := Pieces(chunk);
    NulEndsPieces(chunk);
    DroppingShortens(ps);
    assert ps[0] == ps[0..][0] == "";
    var complete := Complete(chunk);
    assert complete[0] == "" && |"stop"| == 4;
    assert BeforeStop(complete) == [complete[0]] + BeforeStop(complete[1..]);
    assert BeforeStop(complete)[0] == "";
  }

  lemma ReadHoldsMore(pending: Option<string>, chunk: string)
    requires EndsWithNul(chunk) && NoneEmpty(BeforeStop(Complete(Carried(pending) + chunk)))
    ensures pending.Some? || Split(chunk) != []
  {
    assert "" + chunk == chunk;
    if Split(chunk) == [] {
      OnlyEmptyRead(chunk);
    }
  }

  lemma NoneEmptyBehind(a: seq<string>, b: seq<string>)
    ensures NoneEmpty(a + b) <==> NoneEmpty(a) && NoneEmpty(b)
  {
    if NoneEmpty(a + b) {
      forall i | 0 <= i < |a|
        ensures a[i] != ""
      {
        assert (a + b)[i] != "";
      }
      forall i | 0 <= i < |b|
        ensures b[i] != ""
      {
        assert (a + b)[|a| + i] != "";
      }
    }
  }

  lemma ClosedRoundReflects(l: Loop, s: string, chunk: string)
    requires Reflects(l, s) && "stop" !in Complete(s) && EndsWithNul(chunk)
    requires NoneEmpty(BeforeStop(Complete(s + chunk)))
    ensures Reflects(Round(l, chunk), s + chunk)
  {
    hide Pieces, Reframe, BeforeStop, Split, Handle;
    var next := Complete(Begun(s) + chunk);
    CompleteOfConcat(s, chunk);
    BeforeStopOfConcat(Complete(s), next);
    NoneEmptyBehind(Complete(s), BeforeStop(next));
    assert Carried(l.pending) == Begun(s);
    ReadHoldsMore(l.pending, chunk);
    var messages := RoundTakesPrefix(l.pending, chunk);
    var dropped := next[|messages|..];
    assert next == messages + dropped;
    HandleIsBeforeStop(l.handled, messages);
    BeforeStopOfConcat(messages, dropped);
    EmptyAreNoStop(dropped);
    NoneEmptyBehind(messages, dropped);
  }

  lemma RoundReflects(l: Loop, s: string, chunk: string)
    requires Reflects(l, s) && chunk != "" && NoneEmpty(BeforeStop(Complete(s + chunk)))
    ensures Reflects(Round(l, chunk), s + chunk)
  {
    hide Pieces, Reframe, BeforeStop;
    var next := Complete(Begun(s) + chunk);
    CompleteOfConcat(s, chunk);
    BeforeStopOfConcat(Complete(s), next);
    if "stop" !in Complete(s) {
      assert Carried(l.pending) == Begun(s);
      if EndsWithNul(chunk) {
        ClosedRoundReflects(l, s, chunk);
      } else {
        OpenRound(l.pending, chunk);
        HandleIsBeforeStop(l.handled, next);
      }
    }
  }

  function Concat(chunks: seq<string>): string {
    if chunks == [] then "" else chunks[0] + Concat(chunks[1..])
  }

  lemma {:induction false} RoundsReflect(l: Loop, s: string, chunks: seq<string>)
    requires Reflects(l, s) && NoneEmpty(chunks) && NoneEmpty(BeforeStop(Complete(s + Concat(chunks))))
    ensures Reflects(Rounds(l, chunks), s + Concat(chunks))
    decreases |chunks|
  {
    hide Pieces, Round, BeforeStop, Reflects;
    if chunks == [] {
      assert s + "" == s;
    } else {
      var s', next := s + chunks[0], Concat(chunks[1..]);
      assert s + Concat(chunks) == s' + next;
      CompleteOfConcat(s', next);
      BeforeStopOfConcat(Complete(s'), Complete(Begun(s') + next));
      if "stop" !in Complete(s') {
        NoneEmptyBehind(Complete(s'), BeforeStop(Complete(Begun(s') + next)));
      }
      RoundReflects(l, s, chunks[0]);
      RoundsReflect(Round(l, chunks[0]), s', chunks[1..]);
    }
  }

  /** A cut of a stream into reads. */
  ghost predicate Cuts(chunks: seq<string>, s: string) {
    NoneEmpty(chunks) && Concat(chunks) == s
  }

  /** The stream is what is framed of its messages and the beginning of the next. */
  lemma {:induction false} StreamIsFramed(s: string)
    ensures s == Frames(Complete(s)) + Begun(s)
  {
    if s != "" {
      var t, ps := s[1..], Pieces(s);
      StreamIsFramed(t);
      assert s == [s[0]] + t;
      if s[0] == NUL {
        assert Complete(s) == [""] + Complete(t);
      } else if |Pieces(t)| > 1 {
        assert Complete(s) == [[s[0]] + Complete(t)[0]] + Complete(t)[1..];
      }
    }
  }

  lemma {:induction false} FramesOfConcat(a: seq<string>, b: seq<string>)
    ensures Frames(a + b) == Frames(a) + Frames(b)
  {
    if a == [] {
      assert a + b == b;
    } else {
      assert (a + b)[1..] == a[1..] + b;
      FramesOfConcat(a[1..], b);
    }
  }

  lemma {:induction false} RaisedStays(l: Loop, chunks: seq<string>)
    requires l.status == Raised
    ensures Rounds(l, chunks) == l
    decreases |chunks|
  {
    if chunks != [] {
      RaisedStays(l, chunks[1..]);
    }
  }

  lemma {:induction false} RoundsOfConcat(l: Loop, a: seq<string>, b: seq<string>)
    ensures Rounds(l, a + b) == Rounds(Rounds(l, a), b)
    decreases |a|
  {
    if a == [] {
      assert a + b == b;
    } else {
      assert (a + b)[1..] == a[1..] + b;
      RoundsOfConcat(Round(l, a[0]), a[1..], b);
    }
  }

  function OneChunk(s: string): (chunks: seq<string>)
    ensures Cuts(chunks, s)
  {
    if s == "" then [] else
    assert [s][1..] == [] && s + "" == s;
    [s]
  }

  lemma {:induction false} ConcatOfConcat(a: seq<string>, b: seq<string>)
    ensures Concat(a + b) == Concat(a) + Concat(b)
  {
    if a == [] {
      assert a + b == b;
    } else {
      assert (a + b)[1..] == a[1..] + b;
      ConcatOfConcat(a[1..], b);
    }
  }

  /** Reading the NUL of an empty message alone makes the thread raise. */
  lemma LoneNulRaises(handled: seq<string>)
    ensures Round(Loop(None, handled, Running), [NUL]) == Loop(None, handled, Raised)
  {
    SplitLiterals();
    assert [NUL] == "\0";
  }

  /** A cut that fails: all before an empty message in one read, then its NUL alone. */
  lemma FailingCut(s: string, i: nat) returns (chunks: seq<string>)
    requires i < |Complete(s)| && Complete(s)[i] == ""
    requires NoneEmpty(Complete(s)[..i]) && "stop" !in Complete(s)[..i]
    ensures Cuts(chunks, s) && Rounds(INITIAL, chunks) == Loop(None, Complete(s)[..i], Raised)
  {
    hide Pieces, Round, Reflects;
    var complete := Complete(s);
    var before, later := complete[..i], complete[i + 1..];
    var rest := Frames(later) + Begun(s);
    assert complete == before + ([""] + later);
    FramesOfConcat(before, [""] + later);
    assert Frames([""] + later) == [NUL] + Frames(later);
    StreamIsFramed(s);
    assert s == Frames(before) + ([NUL] + rest);
    var first, last := OneChunk(Frames(before)), OneChunk(rest);
    chunks := first + ([[NUL]] + last);
    ConcatOfConcat(first, [[NUL]] + last);
    NoneEmptyBehind(first, [[NUL]] + last);
    assert Cuts(chunks, s);
    forall k | 0 <= k < i
      ensures NulFree(before[k])
    {
      assert before[k] == Pieces(s)[k];
    }
    SplitOfFrames(before);
    EveryCutReflects(first, before);
    RoundsOfConcat(INITIAL, first, [[NUL]] + last);
    LoneNulRaises(before);
    RaisedStays(Loop(None, before, Raised), last);
    assert Rounds(Loop(None, before, Running), [[NUL]] + last) == Rounds(Loop(None, before, Raised), last);
  }

  lemma EveryCutReflects(chunks: seq<string>, messages: seq<string>)
    requires NoneEmpty(chunks) && Complete(Concat(chunks)) == messages && Begun(Concat(chunks)) == ""
    requires NoneEmpty(messages) && "stop" !in messages
    ensures Rounds(INITIAL, chunks) == Loop(None, messages, Running)
  {
    hide Pieces, Round;
    assert "" + Concat(chunks) == Concat(chunks);
    NothingFramed();
    RoundsReflect(INITIAL, "", chunks);
  }

  lemma FirstEmpty(messages: seq<string>) returns (i: nat)
    requires !NoneEmpty(messages)
    ensures i < |messages| && messages[i] == "" && NoneEmpty(messages[..i])
  {
    i := 0;
    while messages[i] != ""
      invariant i < |messages| && NoneEmpty(messages[..i])
      invariant exists k :: i <= k < |messages| && messages[k] == ""
      decreases |messages| - i
    {
      i := i + 1;
    }
  }

  /** Chunking does not matter: the loop ends where the whole-stream split says for every cut of
      the stream into non-empty reads, if and only if no empty message comes before the stop. */
  lemma ChunkingIsInvisible(s: string)
    ensures (forall chunks :: Cuts(chunks, s) ==> Reflects(Rounds(INITIAL, chunks), s))
       <==> NoneEmpty(BeforeStop(Complete(s)))
  {
    hide Pieces, Rounds, Complete, Begun;
    if NoneEmpty(BeforeStop(Complete(s))) {
      forall chunks | Cuts(chunks, s)
        ensures Reflects(Rounds(INITIAL, chunks), s)
      {
        CutReflects(chunks, s);
      }
    } else {
      var i := FirstEmpty(BeforeStop(Complete(s)));
      assert Complete(s)[..i] == BeforeStop(Complete(s))[..i];
      var chunks := FailingCut(s, i);
      assert Cuts(chunks, s) && !Reflects(Rounds(INITIAL, chunks), s);
    }
  }

  lemma CutReflects(chunks: seq<string>, s: string)
    requires Cuts(chunks, s) && NoneEmpty(BeforeStop(Complete(s)))
    ensures Reflects(Rounds(INITIAL, chunks), s)
  {
    hide Pieces, Rounds;
    assert "" + Concat(chunks) == Concat(chunks);
    NothingFramed();
    RoundsReflect(INITIAL, "", chunks);
  }

  /** For framed messages: exactly those before the first `stop` are handled, in order. */
  lemma FramedMessagesAreHandled(messages: seq<string>, chunks: seq<string>)
    requires NoneEmpty(messages) && NoneEmpty(chunks) && Concat(chunks) == Frames(messages)
    requires forall i :: 0 <= i < |messages| ==> NulFree(messages[i])
    ensures Rounds(INITIAL, chunks).handled == BeforeStop(messages)
    ensures Rounds(INITIAL, chunks).status == if "stop" in messages then Stopped else Running
  {
    SplitOfFrames(messages);
    CutReflects(chunks, Concat(chunks));
  }

  lemma SplitLiterals()
    ensures Split("a\0\0") == ["a"] && Split("a\0") == ["a"] && Split("\0") == []
  {
    assert Frames([""]) == "\0" && Frames(["a"]) == "a\0";
    assert Frames(["a", ""]) == "a\0\0";
    SplitOfFrames([""]);
    SplitOfFrames(["a"]);
    SplitOfFrames(["a", ""]);
    assert Pieces("\0") == ["", ""] && Pieces("a\0") == ["a", ""] && Pieces("a\0\0") == ["a", "", ""];
    assert ["a", "", ""][..2] == ["a", ""] && ["a", ""][..1] == ["a"] && ["", ""][..1] == [""];
  }

  lemma OneBeforeStop()
    ensures [] + BeforeStop(["a"]) == ["a"] && "stop" !in ["a"]
  {
    assert |"stop"| == 4 && |"a"| == 1;
  }

  /** With an empty message in the stream the cut does matter: read at once it is dropped
      silently, read alone it makes the thread raise. */
  lemma EmptyMessagesAreChunkDependent()
    ensures Concat(["a\0\0"]) == Concat(["a\0", "\0"])
    ensures Rounds(INITIAL, ["a\0\0"]) == Loop(None, ["a"], Running)
    ensures Rounds(INITIAL, ["a\0", "\0"]) == Loop(None, ["a"], Raised)
  {
    hide Pieces, Split, BeforeStop;
    SplitLiterals();
    LosslessRound(None, "a\0\0", ["a"]);
    LosslessRound(None, "a\0", ["a"]);
    assert ["" + "a"] + ["a"][1..] == ["a"];
    assert Reframe(None, "a\0\0") == (Wrap(["a"]), None) && Reframe(None, "a\0") == (Wrap(["a"]), None);
    HandleIsBeforeStop([], ["a"]);
    OneBeforeStop();
    var afterFirst := Loop(None, ["a"], Running);
    assert Round(INITIAL, "a\0\0") == afterFirst && Round(INITIAL, "a\0") == afterFirst;
    assert Round(afterFirst, "\0") == Loop(None, ["a"], Raised);
    assert Rounds(INITIAL, ["a\0", "\0"]) == Rounds(afterFirst, ["\0"]);
  }
}
