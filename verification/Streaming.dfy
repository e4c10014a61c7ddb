/** Streaming a result: a blocking producer, a bounded channel, a polling consumer. */
module Streaming {
  import opened Wrappers

  type Schema = nat

  datatype Batch = Batch(id: nat, rows: nat, bytes: nat)

  datatype Totals = Totals(batches: nat, rows: nat, bytes: nat)
  {
    function Add(b: Batch): Totals {
      Totals(batches + 1, rows + b.rows, bytes + b.bytes)
    }
  }

  const ZERO := Totals(0, 0, 0)

  datatype Message =
    | Described(schema: Schema)
    | Data(batch: Batch)
    | Done(rows: nat, bytes: nat)
    | Failed
  {
    predicate Closing() {
      Done? || Failed?
    }
  }

  const CAPACITY := 4

  // --- The consumer ---

  datatype Frame =
    | SchemaFrame(schema: Schema)
    | BatchFrame(batch: Batch)
    | Heartbeat(schema: Schema)
    | ErrorFrame
  {
    function Rows(): nat {
      if BatchFrame? then batch.rows else 0
    }
  }

  /** What polling the channel yields. */
  datatype Inner = Ready(message: Message) | Closed | Pending

  datatype Polled = Item(frame: Frame) | End | Waiting

  datatype Consumer = Consumer(schema: Option<Schema>, done: bool, rowsSent: nat)

  /** Outcomes the adapter does not control: whether the frame encodes, whether the heartbeat
      timer fired, and whether there is progress to report. */
  datatype Weather = Weather(encodes: bool, ticked: bool, hasData: bool)

  function PollStep(c: Consumer, inner: Inner, w: Weather): (Consumer, Polled) {
    if c.done then (c, End) else
    match inner
    case Ready(Described(schema)) =>
      (Consumer(Some(schema), !w.encodes, c.rowsSent), Item(if w.encodes then SchemaFrame(schema) else ErrorFrame))
    case Ready(Data(batch)) =>
      (Consumer(c.schema, !w.encodes, c.rowsSent + batch.rows),
       Item(if w.encodes then BatchFrame(batch) else ErrorFrame))
    case Ready(Done(_, _)) => (c.(done := true), End)
    case Ready(Failed) => (c.(done := true), Item(ErrorFrame))
    case Closed => (c.(done := true), End)
    case Pending =>
      (c, if c.schema.Some? && w.ticked && w.hasData && w.encodes then Item(Heartbeat(c.schema.value)) else Waiting)
  }

  class StreamAdapter {
    var schema: Option<Schema>
    var done: bool
    var rowsSent: nat

    function State(): Consumer
      reads this
    {
      Consumer(schema, done, rowsSent)
    }

    constructor ()
      ensures State() == Consumer(None, false, 0)
    {
      schema, done, rowsSent := None, false, 0;
    }

    method PollNext(inner: Inner, w: Weather) returns (polled: Polled)
      modifies this
      ensures (State(), polled) == PollStep(old(State()), inner, w)
      ensures inner.Pending? && !old(done) ==>
                && State() == old(State())
                && polled == if w.ticked && schema.Some? && w.hasData && w.encodes then Item(Heartbeat(schema.value))
                             else Waiting
    {
      if done {
        return End;
      }
      match inner
      case Ready(message) =>
        match message {
          case Described(s) =>
            schema := Some(s);
            if w.encodes {
              return Item(SchemaFrame(s));
            }
            done := true;
            return Item(ErrorFrame);
          case Data(batch) =>
            rowsSent := rowsSent + batch.rows;
            if w.encodes {
              return Item(BatchFrame(batch));
            }
            done := true;
            return Item(ErrorFrame);
          case Done(_, _) =>
            done := true;
            return End;
          case Failed =>
            done := true;
            return Item(ErrorFrame);
        }
      case Closed =>
        done := true;
        return End;
      case Pending =>
        if schema.Some? {
          if w.ticked && w.hasData {
            if w.encodes {
              return Item(Heartbeat(schema.value));
            }
          }
        }
        return Waiting;
    }
  }

  // --- The producer ---

  /** What the closure under the connection lock returned. */
  datatype Outcome = Complete(totals: Totals) | Abandoned | Broken

  datatype Pc =
    | Starting                                  // checks, lockdown, lock, activation, planning
    | SendingEarly(schema: Schema)
    | Rechecking(early: Option<Schema>)         // about to read the cancelled flag
    | Looking(early: Option<Schema>)            // about to look whether the receiver is gone
    | Executing(early: Option<Schema>)
    | SendingLate(schema: Schema)
    | Fetching(totals: Totals)
    | Fetched(totals: Totals, batch: Batch)
    | SendingBatch(totals: Totals, batch: Batch) // the totals already include the batch
    | Finishing(outcome: Outcome)               // guard dropped, final check to come
    | SendingDone(totals: Totals)
    | SendingError
    | Exited

  datatype State = State(
    pc: Pc, cancelled: bool, closed: bool,
    sent: seq<Message>, channel: seq<Message>, received: seq<Message>,
    consumer: Consumer, frames: seq<Frame>, ended: bool)

  const INIT := State(Starting, false, false, [], [], [], Consumer(None, false, 0), [], false)

  /** Receivers leave and requests are cancelled between any two steps. */
  datatype Step =
    | Plan(early: Option<Schema>)
    | StartFails
    | Recheck
    | Look
    | Execute(executed: Option<Schema>)         // None when the engine reports an error
    | Fetch(batch: Option<Batch>)
    | Send
    | FinalCheck
    | Cancel
    | Disconnect
    | Poll(w: Weather)

  /** The message a sending state sends, and where it goes next when that was accepted or not. */
  function Outgoing(pc: Pc): Option<Message> {
    match pc
    case SendingEarly(schema) => Some(Described(schema))
    case SendingLate(schema) => Some(Described(schema))
    case SendingBatch(_, batch) => Some(Data(batch))
    case SendingDone(t) => Some(Done(t.rows, t.bytes))
    case SendingError => Some(Failed)
    case _ => None
  }

  function Accepted(pc: Pc): Pc {
    match pc
    case SendingEarly(schema) => Rechecking(Some(schema))
    case SendingLate(_) => Fetching(ZERO)
    case SendingBatch(t, _) => Fetching(t)
    case _ => Exited
  }

  function Refused(pc: Pc): Pc {
    if pc.SendingDone? || pc.SendingError? then Exited else Finishing(Abandoned)
  }

  function Produce(s: State, step: Step): Option<Pc> {
    match step
    case Plan(early) =>
      if !s.pc.Starting? || s.cancelled then None
      else Some(if early.Some? then SendingEarly(early.value) else Rechecking(None))
    case StartFails => if s.pc.Starting? then Some(SendingError) else None
    case Recheck =>
      if !s.pc.Rechecking? then None
      else Some(if s.cancelled then Finishing(Broken) else Looking(s.pc.early))
    case Look =>
      if s.pc.Looking? then Some(if s.closed then Finishing(Abandoned) else Executing(s.pc.early))
      else if s.pc.Fetched? then
        Some(if s.closed then Finishing(Abandoned) else SendingBatch(s.pc.totals.Add(s.pc.batch), s.pc.batch))
      else None
    case Execute(executed) =>
      if !s.pc.Executing? then None
      else if executed.None? then Some(Finishing(Broken))
      else if s.pc.early.None? then Some(SendingLate(executed.value))
      else if s.pc.early != executed then Some(Finishing(Broken))
      else Some(Fetching(ZERO))
    case Fetch(batch) =>
      if !s.pc.Fetching? then None
      else Some(if batch.Some? then Fetched(s.pc.totals, batch.value) else Finishing(Complete(s.pc.totals)))
    case FinalCheck =>
      if !s.pc.Finishing? then None
      else if s.cancelled || s.pc.outcome.Broken? then Some(SendingError)
      else if s.pc.outcome.Abandoned? then Some(Exited)
      else Some(SendingDone(s.pc.outcome.totals))
    case _ => None
  }

  /** Only the live receiver polls. A monitor task holds a sender until the receiver goes,
      so an empty channel is pending, never closed. */
  function PollChannel(s: State, w: Weather): State {
    var waiting := s.consumer.done || s.channel == [];
    var inner := if s.channel == [] then Pending else Ready(s.channel[0]);
    var (consumer, polled) := PollStep(s.consumer, inner, w);
    s.(consumer := consumer,
       channel := if waiting then s.channel else s.channel[1..],
       received := if waiting then s.received else s.received + [s.channel[0]],
       frames := if polled.Item? then s.frames + [polled.frame] else s.frames,
       ended := s.ended || polled.End?)
  }

  /** The state after a step, or None when the step cannot happen. */
  function Apply(s: State, step: Step): Option<State> {
    match step
    case Send =>
      if Outgoing(s.pc).None? then None
      else if s.closed then Some(s.(pc := Refused(s.pc)))
      else if |s.channel| >= CAPACITY then None
      else
        var message := Outgoing(s.pc).value;
        Some(s.(pc := Accepted(s.pc), sent := s.sent + [message], channel := s.channel + [message]))
    case Cancel => Some(s.(cancelled := true))
    case Disconnect => Some(s.(closed := true))
    case Poll(w) => if s.closed then None else Some(PollChannel(s, w))
    case _ =>
      var pc := Produce(s, step);
      if pc.None? then None else Some(s.(pc := pc.value))
  }

  /** The state after a whole run, or None when some step could not happen. */
  function Exec(steps: seq<Step>): Option<State>
    decreases |steps|
  {
    if steps == [] then Some(INIT)
    else
      var before := Exec(steps[..|steps| - 1]);
      if before.None? then None else Apply(before.value, steps[|steps| - 1])
  }

  // --- What a run may send ---

  function TotalsOf(log: seq<Message>): Totals {
    if log == [] then ZERO
    else
      var before := TotalsOf(log[..|log| - 1]);
      if log[|log| - 1].Data? then before.Add(log[|log| - 1].batch) else before
  }

  /** A schema, if anything, and then only batches. */
  predicate Open(log: seq<Message>) {
    forall i :: 0 <= i < |log| ==> if i == 0 then log[i].Described? else log[i].Data?
  }

  /** An open log, possibly closed by one error, or by one `Done` with the right totals. */
  predicate WellFormed(log: seq<Message>) {
    || Open(log)
    || (&& log != [] && Open(log[..|log| - 1])
        && var last := log[|log| - 1];
           && last.Closing()
           && (last.Done? ==> |log| > 1 && last.rows == TotalsOf(log).rows && last.bytes == TotalsOf(log).bytes))
  }

  predicate Ended(log: seq<Message>) {
    log != [] && log[|log| - 1].Closing()
  }

  /** What the producer has sent when it stands at `s.pc`. */
  predicate ProducerInv(s: State) {
    && WellFormed(s.sent)
    && (Ended(s.sent) ==> s.pc.Exited?)
    && match s.pc
       case Starting => s.sent == []
       case SendingEarly(_) => s.sent == []
       case Rechecking(early) => s.sent == if early.Some? then [Described(early.value)] else []
       case Looking(early) => s.sent == if early.Some? then [Described(early.value)] else []
       case Executing(early) => s.sent == if early.Some? then [Described(early.value)] else []
       case SendingLate(_) => s.sent == []
       case Fetching(t) => s.sent != [] && t == TotalsOf(s.sent)
       case Fetched(t, _) => s.sent != [] && t == TotalsOf(s.sent)
       case SendingBatch(t, b) => s.sent != [] && t == TotalsOf(s.sent).Add(b)
       case Finishing(Complete(t)) => s.sent != [] && t == TotalsOf(s.sent)
       case Finishing(Abandoned) => s.closed
       case Finishing(Broken) => true
       case SendingDone(t) => s.sent != [] && t == TotalsOf(s.sent)
       case SendingError => true
       case Exited => s.closed || Ended(s.sent)
  }

  lemma {:induction false} SnocTotals(log: seq<Message>, m: Message)
    ensures TotalsOf(log + [m]) == if m.Data? then TotalsOf(log).Add(m.batch) else TotalsOf(log)
  {
    assert (log + [m])[..|log|] == log;
  }

  lemma {:induction false} SendInv(s: State)
    requires ProducerInv(s) && Apply(s, Send).Some?
    ensures ProducerInv(Apply(s, Send).value)
  {
    if !s.closed {
      var m := Outgoing(s.pc).value;
      SnocTotals(s.sent, m);
      assert (s.sent + [m])[..|s.sent|] == s.sent;
      assert TotalsOf([]) == ZERO;
    }
  }

  lemma {:induction false} ProducerStep(s: State, step: Step)
    requires ProducerInv(s) && Apply(s, step).Some?
    ensures ProducerInv(Apply(s, step).value)
  {
    if step.Send? {
      SendInv(s);
    } else {
      assert TotalsOf([]) == ZERO;
      assert forall schema :: TotalsOf([Described(schema)]) == ZERO;
    }
  }

  /** The batch loop, run to its end while the receiver takes `accepts` messages and then
      goes away: what it sends, and the totals unless it was abandoned. */
  method SendBatches(batches: seq<Batch>, accepts: nat) returns (sent: seq<Message>, completed: Option<Totals>)
    ensures |sent| == if |batches| <= accepts then |batches| else accepts
    ensures forall i :: 0 <= i < |sent| ==> sent[i] == Data(batches[i])
    ensures completed == if |batches| <= accepts then Some(TotalsOf(sent)) else None
  {
    sent := [];
    var count: nat, rows: nat, bytes: nat := 0, 0, 0;
    for i := 0 to |batches|
      invariant |sent| == i <= accepts
      invariant forall j :: 0 <= j < i ==> sent[j] == Data(batches[j])
      invariant Totals(count, rows, bytes) == TotalsOf(sent)
    {
      if accepts <= i {
        return sent, None;
      }
      count := count + 1;
      rows := rows + batches[i].rows;
      bytes := bytes + batches[i].bytes;
      SnocTotals(sent, Data(batches[i]));
      sent := sent + [Data(batches[i])];
    }
    completed := Some(Totals(count, rows, bytes));
  }

  // --- What the client sees ---

  function Frames(m: Message): seq<Frame> {
    match m
    case Described(schema) => [SchemaFrame(schema)]
    case Data(batch) => [BatchFrame(batch)]
    case Done(_, _) => []
    case Failed => [ErrorFrame]
  }

  /** The frames that messages stand for. */
  function Shown(log: seq<Message>): seq<Frame> {
    if log == [] then []
    else
      Shown(log[..|log| - 1]) + Frames(log[|log| - 1])
  }

  function WithoutHeartbeats(frames: seq<Frame>): seq<Frame> {
    if frames == [] then []
    else
      var last := frames[|frames| - 1];
      WithoutHeartbeats(frames[..|frames| - 1]) + if last.Heartbeat? then [] else [last]
  }

  /** The channel is first in, first out, and the adapter remembers what it received. */
  predicate LogInv(s: State) {
    var c := s.consumer;
    && s.sent == s.received + s.channel
    && c.rowsSent == TotalsOf(s.received).rows
    && (c.schema.Some? <==> s.received != [] && s.received[0].Described?)
    && (c.schema.Some? ==> s.received[0] == Described(c.schema.value))
    && (Ended(s.received) ==> c.done)
    && (s.ended ==> c.done)
  }

  /** The frames are those of the received messages, or the last one did not encode and an
      error frame stands in its place. */
  predicate FramesInv(s: State) {
    || (WithoutHeartbeats(s.frames) == Shown(s.received) && s.consumer.done == Ended(s.received))
    || (&& s.consumer.done && s.received != [] && !Ended(s.received)
        && WithoutHeartbeats(s.frames) == Shown(s.received[..|s.received| - 1]) + [ErrorFrame])
  }

  /** The schema frame comes first, heartbeats repeat it, and nothing follows an error. */
  predicate OrderInv(s: State) {
    && (forall i :: 0 <= i < |s.frames| ==>
          if i == 0 then s.frames[i].SchemaFrame? || s.frames[i].ErrorFrame? else !s.frames[i].SchemaFrame?)
    && (forall i :: 0 <= i < |s.frames| && s.frames[i].Heartbeat? ==>
          s.frames[0] == SchemaFrame(s.frames[i].schema))
    && (forall i :: 0 <= i < |s.frames| && s.frames[i].ErrorFrame? ==> i == |s.frames| - 1 && s.consumer.done)
    && (!s.consumer.done ==>
          if s.consumer.schema.Some? then s.frames != [] && s.frames[0] == SchemaFrame(s.consumer.schema.value)
          else s.frames == [])
  }

  /** The first message received, and only that one, is the schema or an early error. */
  lemma {:induction false} NextMessage(s: State)
    requires LogInv(s) && ProducerInv(s) && s.channel != []
    ensures s.received == [] ==> s.channel[0].Described? || s.channel[0].Failed?
    ensures s.received != [] ==> !s.channel[0].Described?
    ensures s.received != [] && !s.consumer.done ==> s.consumer.schema.Some?
  {
    assert s.sent[|s.received|] == s.channel[0];
    if s.received != [] {
      assert s.sent[0] == s.received[0];
    }
  }

  /** Polling a message: one frame for it, an error frame if that does not encode. */
  lemma {:induction false} PollMessage(s: State, w: Weather)
    requires !s.consumer.done && s.channel != []
    ensures var s' := PollChannel(s, w);
            var m := s.channel[0];
            var lost := !w.encodes && !m.Closing();
            && s'.received == s.received + [m]
            && s'.channel == s.channel[1..]
            && s'.frames == s.frames + (if lost then [ErrorFrame] else Frames(m))
            && s'.consumer.done == (lost || m.Closing())
            && s'.consumer.schema == (if m.Described? then Some(m.schema) else s.consumer.schema)
            && s'.consumer.rowsSent == s.consumer.rowsSent + (if m.Data? then m.batch.rows else 0)
            && s'.ended == (s.ended || m.Done?)
            && (s'.pc, s'.cancelled, s'.closed, s'.sent) == (s.pc, s.cancelled, s.closed, s.sent)
  {
  }

  /** Polling an empty channel adds at most a heartbeat, which repeats the schema. */
  lemma {:induction false} PollNothing(s: State, w: Weather)
    requires s.consumer.done || s.channel == []
    ensures var s' := PollChannel(s, w);
            && s' == s.(frames := s'.frames, ended := s.ended || s.consumer.done)
            && (|| s'.frames == s.frames
                || (&& !s.consumer.done && s.consumer.schema.Some?
                    && s'.frames == s.frames + [Heartbeat(s.consumer.schema.value)]))
  {
  }

  lemma {:induction false} LogPoll(s: State, w: Weather)
    requires LogInv(s) && ProducerInv(s)
    ensures LogInv(PollChannel(s, w))
  {
    hide PollChannel, TotalsOf;
    if s.consumer.done || s.channel == [] {
      PollNothing(s, w);
    } else {
      var m := s.channel[0];
      NextMessage(s);
      hide ProducerInv;
      PollMessage(s, w);
      SnocTotals(s.received, m);
      assert s.sent == (s.received + [m]) + s.channel[1..];
      assert (s.received + [m])[0] == if s.received == [] then m else s.received[0];
    }
  }

  lemma {:induction false} LogStep(s: State, step: Step)
    requires LogInv(s) && ProducerInv(s) && Apply(s, step).Some?
    ensures LogInv(Apply(s, step).value)
  {
    hide PollChannel, ProducerInv, TotalsOf;
    if step.Send? && !s.closed {
      var m := Outgoing(s.pc).value;
      assert s.received + (s.channel + [m]) == s.sent + [m];
    } else if step.Poll? {
      LogPoll(s, step.w);
    }
  }

  lemma {:induction false} SnocFrames(frames: seq<Frame>, f: Frame)
    ensures WithoutHeartbeats(frames + [f]) == WithoutHeartbeats(frames) + if f.Heartbeat? then [] else [f]
  {
    assert (frames + [f])[..|frames|] == frames;
  }

  lemma {:induction false} FramesPoll(s: State, w: Weather)
    requires FramesInv(s)
    ensures FramesInv(PollChannel(s, w))
  {
    hide PollChannel, Shown, WithoutHeartbeats;
    if s.consumer.done || s.channel == [] {
      PollNothing(s, w);
      if s.consumer.schema.Some? {
        SnocFrames(s.frames, Heartbeat(s.consumer.schema.value));
      }
    } else {
      var m := s.channel[0];
      PollMessage(s, w);
      SnocShown(s.received, m);
      SnocFrames(s.frames, if !w.encodes || m.Done? then ErrorFrame else Frames(m)[0]);
      assert (s.received + [m])[..|s.received|] == s.received;
      assert s.frames + [] == s.frames && Shown(s.received) + [] == Shown(s.received);
    }
  }

  lemma {:induction false} FramesStep(s: State, step: Step)
    requires FramesInv(s) && Apply(s, step).Some?
    ensures FramesInv(Apply(s, step).value)
  {
    hide PollChannel, Shown, WithoutHeartbeats;
    if step.Poll? {
      FramesPoll(s, step.w);
    }
  }

  lemma {:induction false} SnocShown(log: seq<Message>, m: Message)
    ensures Shown(log + [m]) == Shown(log) + Frames(m)
  {
    assert (log + [m])[..|log|] == log;
  }

  lemma {:induction false} OrderPoll(s: State, w: Weather)
    requires OrderInv(s) && LogInv(s) && ProducerInv(s)
    ensures OrderInv(PollChannel(s, w))
  {
    var s' := PollChannel(s, w);
    hide PollChannel, TotalsOf, ProducerInv;
    if s.consumer.done || s.channel == [] {
      PollNothing(s, w);
    } else {
      NextMessage(s);
      PollMessage(s, w);
    }
    hide LogInv;
    assert forall i :: 0 <= i < |s.frames| ==> s'.frames[i] == s.frames[i];
  }

  lemma {:induction false} OrderStep(s: State, step: Step)
    requires OrderInv(s) && LogInv(s) && ProducerInv(s) && Apply(s, step).Some?
    ensures OrderInv(Apply(s, step).value)
  {
    hide PollChannel, ProducerInv, LogInv;
    if step.Poll? {
      OrderPoll(s, step.w);
    }
  }

  predicate Inv(s: State) {
    ProducerInv(s) && LogInv(s) && FramesInv(s) && OrderInv(s)
  }

  lemma {:induction false} ExecInv(steps: seq<Step>)
    requires Exec(steps).Some?
    ensures Inv(Exec(steps).value)
    decreases |steps|
  {
    if steps != [] {
      var before := steps[..|steps| - 1];
      var step := steps[|steps| - 1];
      ExecInv(before);
      var s := Exec(before).value;
      hide ProducerInv, LogInv, FramesInv, OrderInv, Apply;
      ProducerStep(s, step);
      LogStep(s, step);
      FramesStep(s, step);
      OrderStep(s, step);
    }
  }

  // --- Over every run ---

  /** At most one schema, before any batch; at most one closing message, and nothing after it;
      `Done` carries the sums of the batches sent. */
  lemma {:induction false} ProducerGrammar(steps: seq<Step>)
    requires Exec(steps).Some?
    ensures var sent := Exec(steps).value.sent;
            forall i :: 0 <= i < |sent| ==>
              && (sent[i].Described? ==> i == 0)
              && (sent[i].Data? ==> sent[0].Described? && 0 < i)
              && (sent[i].Closing() ==> i == |sent| - 1)
              && (sent[i].Done? ==>
                    && sent[0].Described? && 0 < i
                    && sent[i] == Done(TotalsOf(sent).rows, TotalsOf(sent).bytes))
  {
    ExecInv(steps);
    hide Exec, Open, LogInv, FramesInv, OrderInv;
    WellFormedGrammar(Exec(steps).value.sent);
  }

  lemma {:induction false} WellFormedGrammar(sent: seq<Message>)
    requires WellFormed(sent)
    ensures forall i :: 0 <= i < |sent| ==>
              && (sent[i].Described? ==> i == 0)
              && (sent[i].Data? ==> sent[0].Described? && 0 < i)
              && (sent[i].Closing() ==> i == |sent| - 1)
              && (sent[i].Done? ==>
                    && sent[0].Described? && 0 < i
                    && sent[i] == Done(TotalsOf(sent).rows, TotalsOf(sent).bytes))
  {
    hide TotalsOf;
    if Ended(sent) {
      assert forall i :: 0 <= i < |sent| - 1 ==> sent[..|sent| - 1][i] == sent[i];
    }
  }

  /** `Done` was preceded by a final check that found the request not cancelled. */
  lemma {:induction false} DoneIsUncancelled(steps: seq<Step>)
    requires Exec(steps).Some?
    requires var s := Exec(steps).value; s.pc.SendingDone? || exists m :: m in s.sent && m.Done?
    ensures exists k :: 0 <= k < |steps| && steps[k] == FinalCheck
              && Exec(steps[..k]).Some? && !Exec(steps[..k]).value.cancelled
    decreases |steps|
  {
    if steps != [] {
      var n := |steps| - 1;
      var s := Exec(steps[..n]).value;
      if s.pc.SendingDone? || exists m :: m in s.sent && m.Done? {
        DoneIsUncancelled(steps[..n]);
        var k :| 0 <= k < n && steps[..n][k] == FinalCheck
                 && Exec(steps[..n][..k]).Some? && !Exec(steps[..n][..k]).value.cancelled;
        assert steps[..n][..k] == steps[..k];
      } else {
        assert steps[n] == FinalCheck && !s.cancelled;
      }
    }
  }

  // --- The schema announced is the schema executed ---

  /** What the producer is about to announce, or has announced, was executed. */
  predicate RanAs(steps: seq<Step>, s: State) {
    && (s.pc.SendingLate? ==> Execute(Some(s.pc.schema)) in steps)
    && (s.pc.Fetching? || s.pc.Fetched? || s.pc.SendingBatch? || s.pc.SendingDone?
        || (s.pc.Finishing? && s.pc.outcome.Complete?)
        || Carries(s.sent) ==>
          s.sent != [] && s.sent[0].Described? && Execute(Some(s.sent[0].schema)) in steps)
  }

  /** A batch or `Done` is in the log. */
  predicate Carries(log: seq<Message>) {
    exists i :: 0 <= i < |log| && (log[i].Data? || log[i].Done?)
  }

  lemma {:induction false} SnocCarries(log: seq<Message>, m: Message)
    ensures Carries(log + [m]) <==> Carries(log) || m.Data? || m.Done?
  {
    if Carries(log) {
      var i :| 0 <= i < |log| && (log[i].Data? || log[i].Done?);
      assert (log + [m])[i] == log[i];
    }
    assert (log + [m])[|log|] == m;
  }

  /** Polling leaves the producer's side alone. */
  lemma {:induction false} PollKeeps(s: State, w: Weather)
    ensures var s' := PollChannel(s, w);
            (s'.pc, s'.cancelled, s'.closed, s'.sent) == (s.pc, s.cancelled, s.closed, s.sent)
  {
  }

  lemma {:induction false} RanStep(before: seq<Step>, s: State, step: Step)
    requires ProducerInv(s) && RanAs(before, s) && Apply(s, step).Some?
    ensures RanAs(before + [step], Apply(s, step).value)
  {
    hide PollChannel, TotalsOf, Carries, WellFormed;
    var s' := Apply(s, step).value;
    assert forall t :: t in before ==> t in before + [step];
    assert step in before + [step];
    if step.Send? && !s.closed {
      SnocCarries(s.sent, Outgoing(s.pc).value);
      assert s.sent != [] ==> s'.sent[0] == s.sent[0];
    } else if step.Poll? {
      PollKeeps(s, step.w);
    }
  }

  /** Once a batch or `Done` was sent, the first message announced the schema that the query was
      executed with. */
  lemma {:induction false} AnnouncedIsExecuted(steps: seq<Step>)
    requires Exec(steps).Some?
    ensures var sent := Exec(steps).value.sent;
            (exists i :: 0 <= i < |sent| && (sent[i].Data? || sent[i].Done?)) ==>
              exists x :: Execute(Some(x)) in steps && sent[0] == Described(x)
  {
    RanRuns(steps);
    hide Exec;
    var s := Exec(steps).value;
    if Carries(s.sent) {
      assert s.sent[0] == Described(s.sent[0].schema);
    }
  }

  lemma {:induction false} RanNext(before: seq<Step>, s: State, step: Step)
    requires Inv(s) && RanAs(before, s) && Apply(s, step).Some?
    ensures RanAs(before + [step], Apply(s, step).value)
  {
    hide Apply, RanAs, ProducerInv, LogInv, FramesInv, OrderInv;
    RanStep(before, s, step);
  }

  lemma {:induction false} RanNothing()
    ensures RanAs([], INIT)
  {
    assert !Carries([]);
  }

  lemma {:induction false} RanRuns(steps: seq<Step>)
    requires Exec(steps).Some?
    ensures RanAs(steps, Exec(steps).value)
    decreases |steps|
  {
    hide Apply, RanAs, Inv;
    if steps != [] {
      var before := steps[..|steps| - 1];
      RanRuns(before);
      ExecInv(before);
      RanNext(before, Exec(before).value, steps[|steps| - 1]);
      assert steps == before + [steps[|steps| - 1]];
    } else {
      RanNothing();
    }
  }

  /** Nothing goes wrong: nobody cancels or leaves, the start succeeds, and the engine executes,
      with the planned schema where there is one. */
  ghost predicate Smooth(steps: seq<Step>) {
    && (forall i :: 0 <= i < |steps| ==> !steps[i].StartFails? && !steps[i].Cancel? && !steps[i].Disconnect?)
    && (forall i :: 0 <= i < |steps| && steps[i].Execute? ==> steps[i].executed.Some?)
    && (forall i, j :: 0 <= i < |steps| && 0 <= j < |steps| && steps[i].Plan? && steps[j].Execute? ==>
          steps[i].early.None? || steps[j].executed == steps[i].early)
  }

  /** The schema of the plan, when the producer still holds it. */
  function Planned(pc: Pc): Option<Schema> {
    match pc
    case SendingEarly(schema) => Some(schema)
    case Rechecking(early) => early
    case Looking(early) => early
    case Executing(early) => early
    case _ => None
  }

  ghost predicate Untroubled(steps: seq<Step>, s: State) {
    && !s.cancelled && !s.closed && !s.pc.SendingError? && Failed !in s.sent
    && (s.pc.Finishing? ==> s.pc.outcome.Complete?)
    && (Planned(s.pc).Some? ==> Plan(Planned(s.pc)) in steps)
  }

  lemma {:induction false} SmoothPrefix(before: seq<Step>, step: Step)
    requires Smooth(before + [step])
    ensures Smooth(before)
  {
    var steps := before + [step];
    assert forall i :: 0 <= i < |before| ==> before[i] == steps[i];
  }

  lemma {:induction false} SmoothRuns(steps: seq<Step>)
    requires Exec(steps).Some? && Smooth(steps)
    ensures Untroubled(steps, Exec(steps).value)
    decreases |steps|
  {
    if steps != [] {
      var before := steps[..|steps| - 1];
      var step := steps[|steps| - 1];
      assert steps == before + [step];
      hide Smooth, Untroubled, Apply;
      SmoothPrefix(before, step);
      SmoothRuns(before);
      SmoothStep(before, Exec(before).value, step);
    }
  }

  /** Then no error is ever sent, and a producer that is finished has sent `Done`. */
  lemma {:induction false} SmoothRunsSucceed(steps: seq<Step>)
    requires Exec(steps).Some? && Smooth(steps)
    ensures var s := Exec(steps).value;
            && !s.pc.SendingError? && Failed !in s.sent
            && (s.pc.Exited? ==> s.sent != [] && s.sent[|s.sent| - 1].Done?)
  {
    SmoothRuns(steps);
    ExecInv(steps);
    hide Exec, Smooth, Open, LogInv, FramesInv, OrderInv, WellFormed;
  }

  lemma {:induction false} SmoothStep(before: seq<Step>, s: State, step: Step)
    requires Smooth(before + [step]) && Untroubled(before, s) && Apply(s, step).Some?
    ensures Untroubled(before + [step], Apply(s, step).value)
  {
    hide PollChannel;
    var steps := before + [step];
    assert steps[|before|] == step;
    assert forall t :: t in before ==> t in steps;
    if step.Poll? {
      PollKeeps(s, step.w);
    } else if step.Execute? && s.pc.Executing? && s.pc.early.Some? {
      var i :| 0 <= i < |before| && before[i] == Plan(s.pc.early);
      assert steps[i] == Plan(s.pc.early);
    }
  }

  // --- Every batch fetched is sent ---

  /** The batches the engine gave. */
  function FetchedBy(steps: seq<Step>): seq<Batch> {
    if steps == [] then []
    else
      var last := steps[|steps| - 1];
      FetchedBy(steps[..|steps| - 1]) + if last.Fetch? && last.batch.Some? then [last.batch.value] else []
  }

  /** The batch fetched and not sent yet. */
  function InHand(pc: Pc): seq<Batch> {
    if pc.Fetched? || pc.SendingBatch? then [pc.batch] else []
  }

  /** The producer announced the end. */
  predicate IsDone(log: seq<Message>) {
    log != [] && log[|log| - 1].Done?
  }

  predicate AtEnd(s: State) {
    (s.pc.Finishing? && s.pc.outcome.Complete?) || s.pc.SendingDone? || IsDone(s.sent)
  }

  /** A batch in hand was given up, as the receiver had gone. */
  predicate GaveUp(s: State) {
    && s.closed && !IsDone(s.sent)
    && (s.pc.SendingError? || s.pc.Exited? || (s.pc.Finishing? && s.pc.outcome.Abandoned?))
  }

  lemma {:induction false} GivingUp(s: State, step: Step)
    requires ProducerInv(s) && GaveUp(s) && Apply(s, step).Some?
    ensures GaveUp(Apply(s, step).value)
  {
    hide PollChannel, TotalsOf, WellFormed;
  }

  lemma {:induction false} EndStep(s: State, step: Step)
    requires Apply(s, step).Some? && AtEnd(Apply(s, step).value)
    ensures AtEnd(s) || step == Fetch(None)
  {
    if step.Poll? {
      PollKeeps(s, step.w);
    }
    hide PollChannel;
  }

  /** Unless the receiver went and a batch was given up, the batches sent, and the one in hand,
      are the batches the engine gave, in order; and `Done` says that it gave no more. */
  predicate FetchedInv(steps: seq<Step>, s: State) {
    && (!GaveUp(s) ==> BatchesOf(s.sent) + InHand(s.pc) == FetchedBy(steps))
    && (AtEnd(s) ==> Fetch(None) in steps)
  }

  lemma {:induction false} SnocFetched(before: seq<Step>, step: Step)
    ensures FetchedBy(before + [step])
         == FetchedBy(before) + if step.Fetch? && step.batch.Some? then [step.batch.value] else []
  {
    assert (before + [step])[..|before|] == before;
  }

  lemma {:induction false} FetchedNext(before: seq<Step>, s: State, step: Step)
    requires ProducerInv(s) && FetchedInv(before, s) && Apply(s, step).Some?
    ensures FetchedInv(before + [step], Apply(s, step).value)
  {
    hide Apply, BatchesOf, AtEnd, InHand, GaveUp, ProducerInv, FetchedBy;
    SnocFetched(before, step);
    DoneExits(s);
    assert forall t :: t in before ==> t in before + [step];
    assert step in before + [step];
    if AtEnd(Apply(s, step).value) {
      EndStep(s, step);
    }
    if GaveUp(s) {
      GivingUp(s, step);
    } else if !GaveUp(Apply(s, step).value) {
      FetchedStep(s, step);
    }
  }

  lemma {:induction false} FetchedFurther(before: seq<Step>, s: State, step: Step)
    requires Inv(s) && FetchedInv(before, s) && Apply(s, step).Some?
    ensures FetchedInv(before + [step], Apply(s, step).value)
  {
    hide Apply, FetchedInv, ProducerInv, LogInv, FramesInv, OrderInv;
    FetchedNext(before, s, step);
  }

  lemma {:induction false} NothingFetched()
    ensures FetchedInv([], INIT)
  {
  }

  lemma {:induction false} FetchedAreSent(steps: seq<Step>)
    requires Exec(steps).Some?
    ensures FetchedInv(steps, Exec(steps).value)
    decreases |steps|
  {
    hide Apply, FetchedInv, Inv;
    if steps != [] {
      var before := steps[..|steps| - 1];
      FetchedAreSent(before);
      ExecInv(before);
      FetchedFurther(before, Exec(before).value, steps[|steps| - 1]);
      assert steps == before + [steps[|steps| - 1]];
    } else {
      NothingFetched();
    }
  }

  /** `Done` is only in the log of a producer that is finished. */
  predicate DoneIsLast(s: State) {
    IsDone(s.sent) ==> s.pc.Exited?
  }

  lemma {:induction false} DoneExits(s: State)
    requires ProducerInv(s)
    ensures DoneIsLast(s)
  {
    hide TotalsOf, WellFormed;
  }

  lemma {:induction false} FetchedStep(s: State, step: Step)
    requires DoneIsLast(s) && Apply(s, step).Some? && !GaveUp(Apply(s, step).value)
    ensures BatchesOf(Apply(s, step).value.sent) + InHand(Apply(s, step).value.pc)
         == (BatchesOf(s.sent) + InHand(s.pc)) + if step.Fetch? && step.batch.Some? then [step.batch.value] else []
  {
    hide PollChannel, BatchesOf;
    assert BatchesOf(s.sent) + [] == BatchesOf(s.sent);
    if step.Send? {
      if !s.closed {
        SnocBatches(s.sent, Outgoing(s.pc).value);
      }
    } else if step.Poll? {
      PollKeeps(s, step.w);
    } else {
      StepHands(s, step);
    }
  }

  /** A step that neither sends nor polls. */
  lemma {:induction false} StepHands(s: State, step: Step)
    requires DoneIsLast(s) && Apply(s, step).Some? && !GaveUp(Apply(s, step).value) && !step.Send? && !step.Poll?
    ensures Apply(s, step).value.sent == s.sent
    ensures InHand(Apply(s, step).value.pc)
         == InHand(s.pc) + if step.Fetch? && step.batch.Some? then [step.batch.value] else []
  {
    assert InHand(s.pc) + [] == InHand(s.pc);
  }

  lemma {:induction false} SnocBatches(log: seq<Message>, m: Message)
    ensures BatchesOf(log + [m]) == BatchesOf(log) + if m.Data? then [m.batch] else []
  {
    assert (log + [m])[..|log|] == log;
  }

  /** A producer that is finished while the client still listens has sent `Done` or an error. */
  lemma {:induction false} NoSilentEnd(steps: seq<Step>)
    requires Exec(steps).Some?
    requires var s := Exec(steps).value; s.pc.Exited? && !s.closed
    ensures Ended(Exec(steps).value.sent)
  {
    ExecInv(steps);
  }

  /** The frames of a complete answer: its schema, then its batches, in order. */
  function Answer(schema: Schema, batches: seq<Batch>): seq<Frame> {
    [SchemaFrame(schema)] + seq(|batches|, i requires 0 <= i < |batches| => BatchFrame(batches[i]))
  }

  function BatchesOf(log: seq<Message>): seq<Batch> {
    if log == [] then []
    else BatchesOf(log[..|log| - 1]) + if log[|log| - 1].Data? then [log[|log| - 1].batch] else []
  }

  function RowsOf(frames: seq<Frame>): nat {
    if frames == [] then 0 else RowsOf(frames[..|frames| - 1]) + frames[|frames| - 1].Rows()
  }

  lemma {:induction false} ShownAnswer(log: seq<Message>)
    requires Open(log) && log != []
    ensures Shown(log) == Answer(log[0].schema, BatchesOf(log))
  {
    var before := log[..|log| - 1];
    if before != [] {
      ShownAnswer(before);
      assert Open(before);
    } else {
      assert log == [log[0]];
      assert BatchesOf(before) == [] && Shown(before) == [];
      assert BatchesOf(log) == [];
    }
  }

  lemma {:induction false} ShownRows(log: seq<Message>)
    ensures RowsOf(Shown(log)) == TotalsOf(log).rows
  {
    if log != [] {
      var before := log[..|log| - 1];
      var m := log[|log| - 1];
      ShownRows(before);
      hide TotalsOf, RowsOf;
      SnocTotals(before, m);
      assert log == before + [m];
      assert Shown(before) + [] == Shown(before);
      if Frames(m) != [] {
        SnocRows(Shown(before), Frames(m)[0]);
      }
    }
  }

  lemma {:induction false} SnocRows(frames: seq<Frame>, f: Frame)
    ensures RowsOf(frames + [f]) == RowsOf(frames) + f.Rows()
  {
    assert (frames + [f])[..|frames|] == frames;
  }

  lemma {:induction false} HeartbeatsAddNoRows(frames: seq<Frame>)
    ensures RowsOf(frames) == RowsOf(WithoutHeartbeats(frames))
  {
    if frames != [] {
      var before := WithoutHeartbeats(frames[..|frames| - 1]);
      HeartbeatsAddNoRows(frames[..|frames| - 1]);
      SnocRows(before, frames[|frames| - 1]);
      assert before + [] == before;
    }
  }

  lemma {:induction false} ClosingIsLast(received: seq<Message>, channel: seq<Message>)
    requires Ended(received) && WellFormed(received + channel)
    ensures channel == []
  {
    var sent := received + channel;
    var k := |received| - 1;
    assert sent[k] == received[k];
  }

  /** A log that is shown without error is a schema, batches and `Done`. */
  lemma {:induction false} ShownWithoutError(log: seq<Message>)
    requires WellFormed(log) && Ended(log) && forall f :: f in Shown(log) ==> !f.ErrorFrame?
    ensures log[0].Described? && log[|log| - 1].Done?
    ensures log[|log| - 1].rows == TotalsOf(log).rows
    ensures Shown(log) == Answer(log[0].schema, BatchesOf(log))
  {
    var body := log[..|log| - 1];
    var last := log[|log| - 1];
    assert last.Failed? ==> ErrorFrame in Shown(log);
    assert !Open(log);
    assert Shown(log) == Shown(body) && BatchesOf(log) == BatchesOf(body) by {
      assert Shown(body) + [] == Shown(body) && BatchesOf(body) + [] == BatchesOf(body);
    }
    hide Shown, TotalsOf, BatchesOf, Answer;
    assert body[0] == log[0];
    ShownAnswer(body);
  }

  /** End to end: a client that saw the end of the stream and no error frame got the schema that
      the query was executed with, then every batch the engine gave until it gave no more, in
      order and once each, and the row total that `Done` announced; the empty heartbeats between
      them all repeat the schema. */
  lemma {:induction false} CleanEndIsComplete(steps: seq<Step>)
    requires Exec(steps).Some?
    requires var s := Exec(steps).value; s.ended && forall f :: f in s.frames ==> !f.ErrorFrame?
    ensures var s := Exec(steps).value;
            && s.sent != [] && s.sent[0].Described? && s.sent[|s.sent| - 1].Done?
            && s.received == s.sent
            && BatchesOf(s.sent) == FetchedBy(steps) && Fetch(None) in steps
            && Execute(Some(s.sent[0].schema)) in steps
            && WithoutHeartbeats(s.frames) == Answer(s.sent[0].schema, BatchesOf(s.sent))
            && RowsOf(s.frames) == s.sent[|s.sent| - 1].rows
            && s.consumer.rowsSent == s.sent[|s.sent| - 1].rows
            && forall i :: 0 <= i < |s.frames| && s.frames[i].Heartbeat? ==> s.frames[i].schema == s.sent[0].schema
  {
    ExecInv(steps);
    FetchedAreSent(steps);
    RanRuns(steps);
    hide Exec, BatchesOf, WithoutHeartbeats;
    CleanEnd(Exec(steps).value);
    assert Exec(steps).value.pc.Exited?;
  }

  lemma {:induction false} CleanEnd(s: State)
    requires Inv(s) && s.ended && forall f :: f in s.frames ==> !f.ErrorFrame?
    ensures s.sent != [] && s.sent[0].Described? && s.sent[|s.sent| - 1].Done?
    ensures s.received == s.sent
    ensures WithoutHeartbeats(s.frames) == Answer(s.sent[0].schema, BatchesOf(s.sent))
    ensures RowsOf(s.frames) == s.sent[|s.sent| - 1].rows && s.consumer.rowsSent == s.sent[|s.sent| - 1].rows
    ensures forall i :: 0 <= i < |s.frames| && s.frames[i].Heartbeat? ==> s.frames[i].schema == s.sent[0].schema
  {
    NoErrorLeft(s.frames);
    var shown := WithoutHeartbeats(s.frames);
    assert shown == Shown(s.received) && Ended(s.received) by {
      hide WithoutHeartbeats, Shown;
      assert shown != [] ==> shown[|shown| - 1] in shown;
    }
    ClosingIsLast(s.received, s.channel);
    assert s.sent == s.received;
    ShownWithoutError(s.sent);
    ShownRows(s.sent);
    HeartbeatsAddNoRows(s.frames);
    hide Shown, WithoutHeartbeats, TotalsOf, RowsOf, BatchesOf, Answer, WellFormed, Open, ProducerInv, FramesInv;
    HeartbeatsRepeat(s, s.sent[0].schema, BatchesOf(s.sent));
  }

  lemma {:induction false} HeartbeatsRepeat(s: State, schema: Schema, batches: seq<Batch>)
    requires OrderInv(s) && WithoutHeartbeats(s.frames) == Answer(schema, batches)
    ensures forall i :: 0 <= i < |s.frames| && s.frames[i].Heartbeat? ==> s.frames[i].schema == schema
  {
    if s.frames != [] {
      FirstShown(s.frames);
      hide WithoutHeartbeats;
      assert Answer(schema, batches)[0] == SchemaFrame(schema);
    }
  }

  lemma {:induction false} FirstShown(frames: seq<Frame>)
    requires frames != [] && !frames[0].Heartbeat?
    ensures WithoutHeartbeats(frames) != [] && WithoutHeartbeats(frames)[0] == frames[0]
  {
    if |frames| > 1 {
      FirstShown(frames[..|frames| - 1]);
    }
  }

  lemma {:induction false} NoErrorLeft(frames: seq<Frame>)
    requires forall f :: f in frames ==> !f.ErrorFrame?
    ensures forall f :: f in WithoutHeartbeats(frames) ==> !f.ErrorFrame?
  {
    if frames != [] {
      NoErrorLeft(frames[..|frames| - 1]);
    }
  }

  // --- Every answer can be delivered ---

  const CLEAR := Weather(true, false, false)

  lemma {:induction false} ExecNext(steps: seq<Step>, step: Step)
    requires Exec(steps).Some?
    ensures Exec(steps + [step]) == Apply(Exec(steps).value, step)
  {
    assert (steps + [step])[..|steps|] == steps;
  }

  lemma {:induction false} ExecTwoMore(steps: seq<Step>, a: Step, b: Step)
    requires Exec(steps).Some? && Apply(Exec(steps).value, a).Some?
    ensures Exec(steps + [a, b]) == Apply(Apply(Exec(steps).value, a).value, b)
  {
    hide Apply, Exec;
    ExecNext(steps, a);
    ExecNext(steps + [a], b);
    assert steps + [a] + [b] == steps + [a, b];
  }

  lemma {:induction false} ExecFour(steps: seq<Step>, a: Step, b: Step, c: Step, d: Step)
    requires Exec(steps).Some?
    requires Apply(Exec(steps).value, a).Some?
    requires Apply(Apply(Exec(steps).value, a).value, b).Some?
    requires Apply(Apply(Apply(Exec(steps).value, a).value, b).value, c).Some?
    ensures Exec(steps + [a, b, c, d]) == Apply(Apply(Apply(Apply(Exec(steps).value, a).value, b).value, c).value, d)
  {
    hide Apply, Exec;
    ExecTwoMore(steps, a, b);
    ExecTwoMore(steps + [a, b], c, d);
    assert steps + [a, b] + [c, d] == steps + [a, b, c, d];
  }

  /** The producer stands between batches, and all it sent has been received and shown. */
  predicate Between(s: State, schema: Schema, batches: seq<Batch>) {
    && s.pc.Fetching? && s.channel == [] && !s.closed && !s.cancelled
    && s.consumer.schema == Some(schema) && !s.consumer.done
    && s.frames == Answer(schema, batches)
  }

  /** A query that is planned with its schema, or without. */
  function Opening(schema: Schema, planned: bool): seq<Step> {
    if planned then [Plan(Some(schema)), Send, Recheck, Look] + [Execute(Some(schema)), Poll(CLEAR)]
    else [Plan(None), Recheck, Look, Execute(Some(schema))] + [Send, Poll(CLEAR)]
  }

  lemma {:induction false} OpensPlanned(schema: Schema)
    ensures Exec(Opening(schema, true)).Some? && Between(Exec(Opening(schema, true)).value, schema, [])
  {
    var first := [Plan(Some(schema)), Send, Recheck, Look];
    assert Exec([]) == Some(INIT);
    hide Exec, TotalsOf;
    ExecFour([], Plan(Some(schema)), Send, Recheck, Look);
    assert [] + first == first;
    ExecTwoMore(first, Execute(Some(schema)), Poll(CLEAR));
    assert Answer(schema, []) == [SchemaFrame(schema)];
  }

  lemma {:induction false} OpensLate(schema: Schema)
    ensures Exec(Opening(schema, false)).Some? && Between(Exec(Opening(schema, false)).value, schema, [])
  {
    var first := [Plan(None), Recheck, Look, Execute(Some(schema))];
    assert Exec([]) == Some(INIT);
    hide Exec, TotalsOf;
    ExecFour([], Plan(None), Recheck, Look, Execute(Some(schema)));
    assert [] + first == first;
    ExecTwoMore(first, Send, Poll(CLEAR));
    assert Answer(schema, []) == [SchemaFrame(schema)];
  }

  /** The steps that bring one batch to the client. */
  function Bring(b: Batch): seq<Step> {
    [Fetch(Some(b)), Look, Send, Poll(CLEAR)]
  }

  lemma {:induction false} Brings(steps: seq<Step>, schema: Schema, batches: seq<Batch>, b: Batch)
    requires Exec(steps).Some? && Between(Exec(steps).value, schema, batches)
    ensures Exec(steps + Bring(b)).Some? && Between(Exec(steps + Bring(b)).value, schema, batches + [b])
  {
    var s := Exec(steps).value;
    assert Answer(schema, batches + [b]) == Answer(schema, batches) + [BatchFrame(b)];
    hide Exec, Answer;
    ExecFour(steps, Fetch(Some(b)), Look, Send, Poll(CLEAR));
  }

  function Delivery(schema: Schema, planned: bool, batches: seq<Batch>): seq<Step> {
    if batches == [] then Opening(schema, planned)
    else Delivery(schema, planned, batches[..|batches| - 1]) + Bring(batches[|batches| - 1])
  }

  lemma {:induction false} Delivers(schema: Schema, planned: bool, batches: seq<Batch>)
    ensures var steps := Delivery(schema, planned, batches);
            Exec(steps).Some? && Between(Exec(steps).value, schema, batches)
    decreases |batches|
  {
    if batches == [] {
      if planned {
        OpensPlanned(schema);
      } else {
        OpensLate(schema);
      }
    } else {
      hide Exec, Between, Bring;
      var before, b := batches[..|batches| - 1], batches[|batches| - 1];
      Delivers(schema, planned, before);
      Brings(Delivery(schema, planned, before), schema, before, b);
      assert before + [b] == batches;
    }
  }

  /** Whatever the schema and the batches are, and whether the schema was planned or not, there
      is a run in which the client gets them all and then the end. */
  lemma {:induction false} EveryAnswerArrives(schema: Schema, planned: bool, batches: seq<Batch>)
    ensures var end := Exec(Delivery(schema, planned, batches) + [Fetch(None), FinalCheck, Send, Poll(CLEAR)]);
            end.Some? && end.value.ended && end.value.frames == Answer(schema, batches)
  {
    Delivers(schema, planned, batches);
    hide Exec, Answer, Delivery;
    ExecFour(Delivery(schema, planned, batches), Fetch(None), FinalCheck, Send, Poll(CLEAR));
  }

  /** A message goes into the channel exactly when there is room, while the receiver is there. */
  lemma {:induction false} SendsWithRoom(s: State)
    requires Outgoing(s.pc).Some? && !s.closed
    ensures Apply(s, Send).Some? <==> |s.channel| < 4
    ensures Apply(s, Send).Some? ==> Apply(s, Send).value.channel == s.channel + [Outgoing(s.pc).value]
  {
  }

  /** A request that is cancelled before it plans announces no schema and sends no batch. */
  lemma {:induction false} CancelledEarlySendsNothing(before: seq<Step>, after: seq<Step>)
    requires Exec(before + [Cancel] + after).Some?
    requires forall i :: 0 <= i < |before| ==> !before[i].Plan?
    ensures forall m :: m in Exec(before + [Cancel] + after).value.sent ==> m.Failed?
  {
    StaysUnplanned(before, after);
  }

  /** Before planning the producer stands at its start, or has failed there. */
  predicate Unplanned(s: State) {
    && (s.pc.Starting? || s.pc.SendingError? || s.pc.Exited?)
    && forall m :: m in s.sent ==> m.Failed?
  }

  lemma {:induction false} UnplannedSendsNothing(steps: seq<Step>)
    requires Exec(steps).Some? && forall i :: 0 <= i < |steps| ==> !steps[i].Plan?
    ensures Unplanned(Exec(steps).value)
    decreases |steps|
  {
    if steps != [] {
      UnplannedSendsNothing(steps[..|steps| - 1]);
      var step := steps[|steps| - 1];
      if step.Poll? {
        PollKeeps(Exec(steps[..|steps| - 1]).value, step.w);
      }
      hide PollChannel;
    }
  }

  lemma {:induction false} StaysUnplanned(before: seq<Step>, after: seq<Step>)
    requires Exec(before + [Cancel] + after).Some?
    requires forall i :: 0 <= i < |before| ==> !before[i].Plan?
    ensures Unplanned(Exec(before + [Cancel] + after).value) && Exec(before + [Cancel] + after).value.cancelled
    decreases |after|
  {
    var steps := before + [Cancel] + after;
    if after == [] {
      assert steps == before + [Cancel] && steps[..|before|] == before;
      UnplannedSendsNothing(before);
    } else {
      var n := |steps| - 1;
      assert steps[..n] == before + [Cancel] + after[..|after| - 1];
      StaysUnplanned(before, after[..|after| - 1]);
      assert Exec(steps) == Apply(Exec(steps[..n]).value, steps[n]);
      hide Exec, Apply, Unplanned;
      StaysUnplannedStep(Exec(steps[..n]).value, steps[n]);
    }
  }

  lemma {:induction false} StaysUnplannedStep(s: State, step: Step)
    requires Unplanned(s) && s.cancelled && Apply(s, step).Some?
    ensures Unplanned(Apply(s, step).value) && Apply(s, step).value.cancelled
  {
    if step.Poll? {
      PollKeeps(s, step.w);
    }
    hide PollChannel;
  }
}
