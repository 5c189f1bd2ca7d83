/**
 * The background Telegram worker's bookkeeping, as a sequential state machine: `execute`
 * numbers a callback and queues a task, one loop step takes the head of the
 * queue and announces its outcome, and the result handlers pop and call the callback.
 *
 * The thread, the event loop and the Qt signal delivery are not modelled; the outcome of
 * each remote call is an input.
 */
module AsyncWorker {
  import opened Options
  import opened Telethon
  import opened PyStr
  import StreamingProxy
  import SessionRepair
  import TelegramConfig

  datatype Op =
    | GetQrCode | WaitForQrScan | SendPassword | Logout | Stop
    | GetChats | GetChatHistory | GetForumTopics | GetStreamUrl

  /** A keyword argument of `execute`. */
  datatype Arg = IntArg(i: int) | TextArg(s: string)

  datatype Task = Task(op: Op, kwargs: map<string, Arg>, callbackId: int)

  /** The id `stop()` gives its STOP task. */
  const StopId := -1

  /** A result object: Python's None, a text such as a stream URL, or a remote object. */
  datatype Value = Nothing | Text(text: string) | RemoteObject(handle: nat)

  /** What the loop announces for a task: `operation_completed` or `operation_failed`. */
  datatype Outcome = Completed(result: Value) | Failed(message: string)

  datatype Emission = Emission(callbackId: int, outcome: Outcome)

  /** The identity of a callback passed to `execute`. */
  datatype Callback = Callback(handle: nat)

  /** One invocation `callback(success, payload)`. */
  datatype Call = Call(callback: Callback, outcome: Outcome)

  // ---------------------------------------------------------------------------
  // The queue loop

  datatype Drained = Drained(emitted: seq<Emission>, remaining: seq<Task>, stopped: bool)

  /** The reference loop: from the head of the queue, each task other than STOP is executed
      and announced with the next remote outcome; STOP ends the loop. Without a task or
      without an outcome the loop has nothing left to do (it would wait). */
  function Drain(queue: seq<Task>, outcomes: seq<Outcome>): (d: Drained)
    ensures |d.emitted| + |d.remaining| + (if d.stopped then 1 else 0) == |queue|
    ensures |d.emitted| <= |outcomes|
    decreases |queue|
  {
    if queue == [] then Drained([], [], false)
    else if queue[0].op == Stop then Drained([], queue[1..], true)
    else if outcomes == [] then Drained([], queue, false)
    else
      var rest := Drain(queue[1..], outcomes[1..]);
      Drained([Emission(queue[0].callbackId, outcomes[0])] + rest.emitted, rest.remaining, rest.stopped)
  }

  /** FIFO order and one announcement per executed task: the loop executes a prefix of the
      queue free of STOP, announcing the k-th task of the queue with its own id and the k-th
      outcome; it ends at the first STOP (consuming it), at the end of the queue, or when
      the outcomes run out, and leaves the rest queued. */
  lemma {:induction false} DrainLaw(queue: seq<Task>, outcomes: seq<Outcome>)
    ensures var d := Drain(queue, outcomes);
      && |d.emitted| <= |queue| && |d.emitted| <= |outcomes|
      && (forall k :: 0 <= k < |d.emitted| ==>
            queue[k].op != Stop && d.emitted[k] == Emission(queue[k].callbackId, outcomes[k]))
      && (d.stopped ==> |d.emitted| < |queue| && queue[|d.emitted|].op == Stop
                        && d.remaining == queue[|d.emitted| + 1..])
      && (!d.stopped ==> d.remaining == queue[|d.emitted|..]
                         && (|d.emitted| == |queue| || |d.emitted| == |outcomes|))
    decreases |queue|
  {
    if queue != [] && queue[0].op != Stop && outcomes != [] {
      DrainLaw(queue[1..], outcomes[1..]);
      var rest := Drain(queue[1..], outcomes[1..]);
      var d := Drain(queue, outcomes);
      forall k | 0 < k < |d.emitted|
        ensures queue[k].op != Stop && d.emitted[k] == Emission(queue[k].callbackId, outcomes[k])
      {
        assert d.emitted[k] == rest.emitted[k - 1];
        assert queue[1..][k - 1] == queue[k];
      }
      if d.stopped {
        assert queue[1..][|rest.emitted|] == queue[|d.emitted|];
        assert queue[1..][|rest.emitted| + 1..] == queue[|d.emitted| + 1..];
      } else {
        assert queue[1..][|rest.emitted|..] == queue[|d.emitted|..];
      }
    }
  }

  /** Nothing queued behind a STOP is ever executed or announced. */
  lemma {:induction false} DrainStopsAtStop(before: seq<Task>, after: seq<Task>, outcomes: seq<Outcome>)
    requires forall k :: 0 <= k < |before| ==> before[k].op != Stop
    requires |outcomes| >= |before|
    ensures var queue := before + [Task(Stop, map[], StopId)] + after;
      Drain(queue, outcomes) == Drained(Drain(before, outcomes).emitted, after, true)
    decreases |before|
  {
    var queue := before + [Task(Stop, map[], StopId)] + after;
    if before == [] {
      assert queue == [Task(Stop, map[], StopId)] + after;
      assert queue[1..] == after;
    } else {
      assert queue[1..] == before[1..] + [Task(Stop, map[], StopId)] + after;
      DrainStopsAtStop(before[1..], after, outcomes[1..]);
    }
  }

  // ---------------------------------------------------------------------------
  // Delivery

  /** `_handle_result` / `_handle_error`: pop the id; call the callback when one was there. */
  function Deliver(callbacks: map<int, Callback>, e: Emission): (r: (map<int, Callback>, seq<Call>))
    ensures r.0 == callbacks - {e.callbackId}
    ensures e.callbackId in callbacks ==> r.1 == [Call(callbacks[e.callbackId], e.outcome)]
    ensures e.callbackId !in callbacks ==> r.1 == []
  {
    if e.callbackId in callbacks then (callbacks - {e.callbackId}, [Call(callbacks[e.callbackId], e.outcome)])
    else (callbacks, [])
  }

  /** The handlers run for each announcement in turn. */
  function DeliverAll(callbacks: map<int, Callback>, es: seq<Emission>): (r: (map<int, Callback>, seq<Call>))
    ensures r.0.Keys <= callbacks.Keys && |r.1| <= |es|
    ensures forall k :: 0 <= k < |es| ==> es[k].callbackId !in r.0
    decreases |es|
  {
    if es == [] then (callbacks, [])
    else
      var first := Deliver(callbacks, es[0]);
      var rest := DeliverAll(first.0, es[1..]);
      assert forall k :: 1 <= k < |es| ==> es[k] == es[1..][k - 1];
      (rest.0, first.1 + rest.1)
  }

  /** A second announcement for an id that was already delivered calls nothing. */
  lemma DeliverOnce(callbacks: map<int, Callback>, id: int, o1: Outcome, o2: Outcome)
    ensures var after := Deliver(callbacks, Emission(id, o1)).0;
      Deliver(after, Emission(id, o2)) == (after, [])
  {
  }

  predicate DistinctIds(es: seq<Emission>) {
    forall i, j :: 0 <= i < j < |es| ==> es[i].callbackId != es[j].callbackId
  }

  /** Exactly one notification per executed task: announcing tasks with distinct registered
      ids calls each task's own callback once, in order, with its outcome, and unregisters
      them all. */
  lemma {:induction false} DeliverAllExactlyOnce(callbacks: map<int, Callback>, es: seq<Emission>)
    requires DistinctIds(es)
    requires forall k :: 0 <= k < |es| ==> es[k].callbackId in callbacks
    ensures var r := DeliverAll(callbacks, es);
      && |r.1| == |es|
      && (forall k :: 0 <= k < |es| ==> r.1[k] == Call(callbacks[es[k].callbackId], es[k].outcome))
      && (forall id :: id in r.0 <==> id in callbacks && forall k :: 0 <= k < |es| ==> es[k].callbackId != id)
    decreases |es|
  {
    if es != [] {
      var first := Deliver(callbacks, es[0]);
      assert DistinctIds(es[1..]) by {
        forall i, j | 0 <= i < j < |es[1..]| ensures es[1..][i].callbackId != es[1..][j].callbackId {
          assert es[1..][i] == es[i + 1] && es[1..][j] == es[j + 1];
        }
      }
      forall k | 0 <= k < |es[1..]| ensures es[1..][k].callbackId in first.0 {
        assert es[1..][k] == es[k + 1];
        assert es[k + 1].callbackId != es[0].callbackId;
      }
      DeliverAllExactlyOnce(first.0, es[1..]);
      var rest := DeliverAll(first.0, es[1..]);
      forall k | 0 <= k < |es| ensures (first.1 + rest.1)[k] == Call(callbacks[es[k].callbackId], es[k].outcome) {
        if k > 0 {
          assert es[1..][k - 1] == es[k];
          assert es[k].callbackId != es[0].callbackId;
        }
      }
      forall id ensures id in rest.0 <==> id in callbacks && forall k :: 0 <= k < |es| ==> es[k].callbackId != id {
        if id in callbacks && id != es[0].callbackId && (forall k :: 0 <= k < |es[1..]| ==> es[1..][k].callbackId != id) {
          forall k | 0 <= k < |es| ensures es[k].callbackId != id {
            if k > 0 { assert es[1..][k - 1] == es[k]; }
          }
        }
        if id in rest.0 {
          forall k | 0 <= k < |es| ensures es[k].callbackId != id {
            if k > 0 { assert es[1..][k - 1] == es[k]; }
          }
        }
      }
    }
  }

  // ---------------------------------------------------------------------------
  // GET_STREAM_URL

  /** The size the worker registers: `file.size`, else `document.size`, else `video.size`,
      else 0. */
  function StreamSize(m: Message): (size: int)
    ensures m.file.Some? ==> size == m.file.value.size
    ensures m.file.None? && m.document.Some? ==> size == m.document.value.size
    ensures m.file.None? && m.document.None? && m.video.Some? ==> size == m.video.value.size
    ensures m.file.None? && m.document.None? && m.video.None? ==> size == 0
  {
    if m.file.Some? then m.file.value.size
    else if m.document.Some? then m.document.value.size
    else if m.video.Some? then m.video.value.size
    else 0
  }

  /** The checks of GET_STREAM_URL before it registers: a proxy must exist, the fetched list
      must start with a message, and its size must be non-zero. Each failure carries the
      source's message, naming the ids as `str()` prints them. */
  function StreamTarget(hasProxy: bool, messageId: int, chatId: int, fetched: seq<Option<Message>>): (r: Result<Message>)
    ensures r.Ok? <==> hasProxy && |fetched| > 0 && fetched[0].Some? && StreamSize(fetched[0].value) != 0
    ensures r.Ok? ==> r.value == fetched[0].value
    ensures !hasProxy ==> r == Raised("Streaming proxy not initialized - cannot generate stream URL")
    ensures hasProxy && (|fetched| == 0 || fetched[0].None?) ==>
      r == Raised("Message " + IntToString(messageId) + " not found in chat " + IntToString(chatId))
    ensures hasProxy && |fetched| > 0 && fetched[0].Some? && StreamSize(fetched[0].value) == 0 ==>
      r == Raised("Could not determine file size for message " + IntToString(messageId))
  {
    if !hasProxy then Raised("Streaming proxy not initialized - cannot generate stream URL")
    else if |fetched| == 0 || fetched[0].None? then
      Raised("Message " + IntToString(messageId) + " not found in chat " + IntToString(chatId))
    else if StreamSize(fetched[0].value) == 0 then
      Raised("Could not determine file size for message " + IntToString(messageId))
    else Ok(fetched[0].value)
  }

  /** GET_STREAM_URL: fetch the message, pick its size, register it with the proxy. A
      failure registers nothing. */
  method ExecuteStreamUrl(proxy: StreamingProxy.Proxy?, messageId: int, chatId: int,
                          fetched: seq<Option<Message>>) returns (outcome: Outcome)
    modifies proxy
    ensures var t := StreamTarget(proxy != null, messageId, chatId, fetched);
      && (t.Raised? ==> outcome == Failed(t.message) && (proxy != null ==> proxy.streams == old(proxy.streams)))
      && (t.Ok? ==>
            && proxy != null
            && proxy.streams == old(proxy.streams)[StreamingProxy.StreamKey(chatId, messageId) :=
                 StreamingProxy.Registration(messageId, chatId, StreamSize(t.value), Some(t.value))]
            && outcome == Completed(Text(proxy.BaseUrl() + "/stream/" + StreamingProxy.StreamKey(chatId, messageId))))
  {
    var t := StreamTarget(proxy != null, messageId, chatId, fetched);
    if t.Raised? {
      return Failed(t.message);
    }
    var url := proxy.GetStreamUrl(messageId, chatId, StreamSize(t.value), Some(t.value));
    outcome := Completed(Text(url));
  }

  /** The ids of the queued tasks other than STOP lie in 1..counter and increase from head
      to tail. */
  ghost predicate QueuedIds(queue: seq<Task>, counter: int) {
    && (forall k :: 0 <= k < |queue| && queue[k].op != Stop ==> 1 <= queue[k].callbackId <= counter)
    && (forall i, j :: 0 <= i < j < |queue| && queue[i].op != Stop && queue[j].op != Stop
          ==> queue[i].callbackId < queue[j].callbackId)
  }

  lemma QueuedIdsTail(queue: seq<Task>, counter: int)
    requires queue != [] && QueuedIds(queue, counter)
    ensures QueuedIds(queue[1..], counter)
  {
    forall i, j | 0 <= i < j < |queue[1..]| && queue[1..][i].op != Stop && queue[1..][j].op != Stop
      ensures queue[1..][i].callbackId < queue[1..][j].callbackId
    {
      assert queue[1..][i] == queue[i + 1] && queue[1..][j] == queue[j + 1];
    }
  }

  /** One step of the reference loop on a task other than STOP. */
  lemma DrainStep(queue: seq<Task>, outcomes: seq<Outcome>)
    requires queue != [] && queue[0].op != Stop && outcomes != []
    ensures var rest := Drain(queue[1..], outcomes[1..]);
      Drain(queue, outcomes) == Drained([Emission(queue[0].callbackId, outcomes[0])] + rest.emitted, rest.remaining, rest.stopped)
  {
  }

  lemma QueuedIdsSuffix(queue: seq<Task>, counter: int, k: int)
    requires 0 <= k <= |queue| && QueuedIds(queue, counter)
    ensures QueuedIds(queue[k..], counter)
  {
    forall i, j | 0 <= i < j < |queue[k..]| && queue[k..][i].op != Stop && queue[k..][j].op != Stop
      ensures queue[k..][i].callbackId < queue[k..][j].callbackId
    {
      assert queue[k..][i] == queue[i + k] && queue[k..][j] == queue[j + k];
    }
  }

  /** The emissions `es`, followed by what the rest of the loop does. */
  function After(es: seq<Emission>, d: Drained): Drained {
    Drained(es + d.emitted, d.remaining, d.stopped)
  }

  /** The `_worker_main` loop over the queue: take the head; STOP ends the loop; any other
      task is executed and its outcome announced. */
  method DrainQueue(queue: seq<Task>, outcomes: seq<Outcome>)
    returns (emitted: seq<Emission>, remaining: seq<Task>, stopped: bool)
    ensures Drained(emitted, remaining, stopped) == Drain(queue, outcomes)
  {
    var q := queue;
    emitted := [];
    var i := 0;
    assert outcomes[0..] == outcomes;
    while q != []
      invariant 0 <= i <= |outcomes|
      invariant Drain(queue, outcomes) == After(emitted, Drain(q, outcomes[i..]))
      decreases |q|
    {
      var task := q[0];
      if task.op == Stop {
        assert emitted + [] == emitted;
        return emitted, q[1..], true;
      }
      if i == |outcomes| {
        assert outcomes[i..] == [];
        assert emitted + [] == emitted;
        break;
      }
      var e := Emission(task.callbackId, outcomes[i]);
      var rest := Drain(q[1..], outcomes[i + 1..]);
      assert outcomes[i..][1..] == outcomes[i + 1..];
      DrainStep(q, outcomes[i..]);
      assert (emitted + [e]) + rest.emitted == emitted + ([e] + rest.emitted);
      q, emitted := q[1..], emitted + [e];
      i := i + 1;
    }
    if q == [] {
      assert emitted + [] == emitted;
    }
    return emitted, q, false;
  }

  // ---------------------------------------------------------------------------
  // The worker object

  /** How far `_worker_main` got in the current thread: not yet run, past the credentials
      and the connect (the loop can run), ended by the exception they raised, or ended by
      leaving the loop (a STOP task, or `_running` found false). */
  datatype Startup = Pending | Up | Dead(error: string) | Ended

  class Worker {
    var counter: int
    var callbacks: map<int, Callback>
    var queue: seq<Task>
    var running: bool
    var hasThread: bool
    var startup: Startup
    /** Signals emitted by the loop, in order. */
    var emitted: seq<Emission>
    /** Callback invocations made by the handlers, in order. */
    var calls: seq<Call>

    /** Every registered id and every queued task id (other than STOP's) was handed out by
        `execute`, and queued ids increase from head to tail. */
    ghost predicate Valid()
      reads this
    {
      && counter >= 0
      && (forall id :: id in callbacks ==> 1 <= id <= counter)
      && QueuedIds(queue, counter)
    }

    constructor()
      ensures Valid()
      ensures counter == 0 && callbacks == map[] && queue == [] && !running && !hasThread
      ensures emitted == [] && calls == [] && startup == Pending
    {
      counter := 0;
      callbacks := map[];
      queue := [];
      running := false;
      hasThread := false;
      startup := Pending;
      emitted := [];
      calls := [];
    }

    /** The thread `start` finds is still alive: it has yet to leave `_worker_main`, or it has
        left it and is still in `_cleanup` (`cleaningUp`, a timing the model takes as input). */
    predicate ThreadAlive(cleaningUp: bool)
      reads this
    {
      hasThread && (startup.Pending? || startup.Up? || cleaningUp)
    }

    /** `start`: nothing while a started thread is still alive; otherwise a new thread that
        has yet to run `_worker_main`. */
    method Start(cleaningUp: bool)
      modifies this
      ensures old(ThreadAlive(cleaningUp)) ==> running == old(running) && startup == old(startup)
      ensures !old(ThreadAlive(cleaningUp)) ==> running && startup == Pending
      ensures old(hasThread) && (old(startup).Pending? || old(startup).Up?) ==> startup == old(startup)
      ensures hasThread
      ensures counter == old(counter) && callbacks == old(callbacks) && queue == old(queue)
      ensures emitted == old(emitted) && calls == old(calls)
    {
      if ThreadAlive(cleaningUp) {
        return;
      }
      running := true;
      hasThread := true;
      startup := Pending;
    }

    /** `stop`: clear the running flag, queue STOP with id -1, forget the thread. */
    method Stop()
      requires Valid()
      modifies this
      ensures Valid()
      ensures !running && !hasThread && startup == old(startup)
      ensures queue == old(queue) + [Task(Op.Stop, map[], StopId)]
      ensures counter == old(counter) && callbacks == old(callbacks)
      ensures emitted == old(emitted) && calls == old(calls)
    {
      running := false;
      queue := queue + [Task(Op.Stop, map[], StopId)];
      hasThread := false;
    }

    /** `execute`: a fresh id, larger than every id handed out before, for the callback;
        a new task goes to the tail of the queue. */
    method Execute(op: Op, callback: Callback, kwargs: map<string, Arg>) returns (id: int)
      requires Valid()
      modifies this
      ensures Valid()
      ensures id == old(counter) + 1 && counter == id
      ensures id !in old(callbacks)
      ensures forall k :: 0 <= k < |old(queue)| && old(queue)[k].op != Op.Stop ==> old(queue)[k].callbackId < id
      ensures callbacks == old(callbacks)[id := callback]
      ensures queue == old(queue) + [Task(op, kwargs, id)]
      ensures running == old(running) && hasThread == old(hasThread) && startup == old(startup)
      ensures emitted == old(emitted) && calls == old(calls)
    {
      counter := counter + 1;
      id := counter;
      callbacks := callbacks[id := callback];
      queue := queue + [Task(op, kwargs, id)];
    }

    /** The start of `_worker_main` in a new thread: load the credentials, build the client
        and connect with one repair. An exception there ends the thread (`_run_event_loop`
        catches and prints it) but leaves `_running` set, so `execute` goes on queuing tasks
        that no loop will run. Once the thread has started, nothing changes. */
    method Boot(inputs: SessionRepair.ConnectInputs) returns (error: Option<string>)
      requires Valid()
      modifies this
      ensures Valid()
      ensures old(startup).Pending? ==> error == SessionRepair.StartupError(inputs)
      ensures old(startup).Pending? ==> startup == (if error.None? then Up else Dead(error.value))
      ensures !old(startup).Pending? ==> error.None? && startup == old(startup)
      ensures running == old(running) && hasThread == old(hasThread)
      ensures counter == old(counter) && callbacks == old(callbacks) && queue == old(queue)
      ensures emitted == old(emitted) && calls == old(calls)
    {
      error := None;
      if !startup.Pending? {
        return;
      }
      error := SessionRepair.StartupError(inputs);
      startup := if error.None? then Up else Dead(error.value);
    }

    /** The `_worker_main` loop of a thread whose startup succeeded: `outcomes` are the
        results of the remote calls it makes, one per task, in order. The loop ends, and the
        thread with it, at a STOP task or when it finds `_running` false; a thread that is
        not up serves nothing. */
    method RunLoop(outcomes: seq<Outcome>) returns (stopped: bool)
      requires Valid()
      modifies this
      ensures Valid()
      ensures var d := Drain(old(queue), outcomes);
        old(running) && old(startup) == Up ==>
          (emitted == old(emitted) + d.emitted && queue == d.remaining && stopped == d.stopped)
      ensures old(running) && old(startup) == Up ==> startup == (if stopped then Ended else Up)
      ensures !(old(running) && old(startup) == Up) ==> emitted == old(emitted) && queue == old(queue) && !stopped
      ensures !old(running) && old(startup) == Up ==> startup == Ended
      ensures old(startup) != Up ==> startup == old(startup)
      ensures counter == old(counter) && callbacks == old(callbacks) && calls == old(calls)
      ensures running == old(running) && hasThread == old(hasThread)
    {
      stopped := false;
      if startup != Up {
        return;
      }
      if !running {
        startup := Ended;
        return;
      }
      var es, rest, st := DrainQueue(queue, outcomes);
      DrainLaw(queue, outcomes);
      QueuedIdsSuffix(queue, counter, |queue| - |rest|);
      queue, emitted, stopped := rest, emitted + es, st;
      if stopped {
        startup := Ended;
      }
    }

    /** `_handle_result(id, result)`. */
    method HandleResult(id: int, result: Value)
      requires Valid()
      modifies this
      ensures Valid()
      ensures callbacks == Deliver(old(callbacks), Emission(id, Completed(result))).0
      ensures calls == old(calls) + Deliver(old(callbacks), Emission(id, Completed(result))).1
      ensures counter == old(counter) && queue == old(queue) && emitted == old(emitted)
      ensures running == old(running) && hasThread == old(hasThread) && startup == old(startup)
    {
      if id in callbacks {
        calls := calls + [Call(callbacks[id], Completed(result))];
      }
      callbacks := callbacks - {id};
    }

    /** `_handle_error(id, message)`. */
    method HandleError(id: int, message: string)
      requires Valid()
      modifies this
      ensures Valid()
      ensures callbacks == Deliver(old(callbacks), Emission(id, Failed(message))).0
      ensures calls == old(calls) + Deliver(old(callbacks), Emission(id, Failed(message))).1
      ensures counter == old(counter) && queue == old(queue) && emitted == old(emitted)
      ensures running == old(running) && hasThread == old(hasThread) && startup == old(startup)
    {
      if id in callbacks {
        calls := calls + [Call(callbacks[id], Failed(message))];
      }
      callbacks := callbacks - {id};
    }
  }

  /** A worker whose startup raised (here: no credentials) keeps running and keeps handing
      out ids, while its queue is never served: the task stays queued and nothing is
      announced, so the callback is never called. */
  method DeadWorkerScenario() returns (id: int, queued: nat, announced: nat, running: bool)
    ensures id == 1 && queued == 1 && announced == 0 && running
  {
    var w := new Worker();
    w.Start(false);
    var error := w.Boot(SessionRepair.ConnectInputs(Raised(TelegramConfig.CredentialsNotFound),
                                                    None, false, false, None));
    id := w.Execute(GetChats, Callback(0), map[]);
    var stopped := w.RunLoop([Completed(Nothing)]);
    queued, announced, running := |w.queue|, |w.emitted|, w.running;
  }

  /** A worker that was started, came up and was stopped: its thread leaves the loop on
      the cleared flag, and the STOP that `stop` queued stays behind. */
  method StoppedWorker(ok: SessionRepair.ConnectInputs) returns (w: Worker)
    requires SessionRepair.StartupError(ok).None?
    ensures fresh(w) && w.Valid()
    ensures !w.running && !w.hasThread && w.startup == Ended
    ensures w.queue == [Task(Op.Stop, map[], StopId)] && w.counter == 0 && w.emitted == []
  {
    w := new Worker();
    w.Start(false);
    var error := w.Boot(ok);
    w.Stop();
    var stopped := w.RunLoop([]);
  }

  /** The same instance started again after `stop`: the new thread comes up, takes the
      stale STOP first and ends, while the worker still reads as running; a task queued
      afterwards gets its id and is never served. */
  method RestartAfterStopScenario() returns (staleStop: bool, id: int, queued: nat, announced: nat, running: bool)
    ensures staleStop && id == 1 && queued == 1 && announced == 0 && running
  {
    var ok := SessionRepair.ConnectInputs(Ok((1, "h")), None, false, false, None);
    var w := StoppedWorker(ok);
    w.Start(false);
    var error := w.Boot(ok);
    staleStop := w.RunLoop([]);
    assert w.startup == Ended && w.queue == [] && w.emitted == [];
    id := w.Execute(GetChats, Callback(0), map[]);
    var second := w.RunLoop([Completed(Nothing)]);
    queued, announced, running := |w.queue|, |w.emitted|, w.running;
  }

  /** The module-level `_telegram_worker` and its get/stop pair. */
  class WorkerHolder {
    var worker: Worker?

    constructor()
      ensures worker == null
    {
      worker := null;
    }

    /** `get_telegram_worker`: the same instance until it is stopped; a new one is started. */
    method Get() returns (w: Worker)
      modifies this
      ensures old(worker) != null ==> w == old(worker) && worker == w
      ensures old(worker) == null ==> fresh(w) && worker == w && w.running && w.Valid()
    {
      if worker == null {
        var created := new Worker();
        created.Start(false);
        worker := created;
      }
      w := worker;
    }

    /** `stop_telegram_worker`: stops the instance and drops it. */
    method StopGlobal()
      requires worker != null ==> worker.Valid()
      modifies this, worker
      ensures worker == null
      ensures old(worker) != null ==>
        !old(worker).running && old(worker).queue == old(worker.queue) + [Task(Op.Stop, map[], StopId)]
    {
      if worker != null {
        worker.Stop();
        worker := null;
      }
    }
  }
}
