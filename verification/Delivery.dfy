/** The notification delivery protocol: a table of rows and a job list, driven by a
    dequeue loop and a database poller whose statements interleave freely. */
module Delivery {
  import opened Wrappers
  import opened Keys

  datatype Status = Pending | Queued | Sent | Failed

  datatype Notification = Notification(user: nat, channel: Channel, key: string, status: Status, retries: nat)

  datatype Preferences = Preferences(inApp: bool, email: bool, sms: bool, push: bool)

  /** What pushing a job can do: no client is configured, or Redis refuses, or it is stored. */
  datatype PushResult = Pushed | NoClient | PushFailed

  /** What happens to one delivery attempt outside the program. */
  datatype Attempt = RowUnreadable | UserUnreadable | SendRefused | SendAccepted

  /** The job the worker's loop is dealing with between its three statements. */
  datatype Hand = Free | Holding(id: nat) | Returning(id: nat)

  /** What the outside world saw: the mail server's answers, and polls that failed before sending. */
  datatype Entry = Accepted(id: nat) | Refused(id: nat) | PollMissed(id: nat)

  /** A snapshot of the protocol. Row ids are positions in the table, in creation order. */
  datatype World = World(
    rows: seq<Notification>,
    jobs: seq<nat>,        // the Redis list, head first: pushed at the head, popped at the tail
    hand: Hand,
    todo: seq<nat>,        // rows the current poll has listed and not yet processed
    owed: Option<nat>,     // row the poller must put back on the list
    log: seq<Entry>)

  const POLL_LIMIT: nat := 50

  // ---------------------------------------------------------------- specification

  function ChannelAllowed(pref: Preferences, ch: Channel): bool
  {
    match ch
    case InApp => pref.inApp
    case Email => pref.email
    case Sms => pref.sms
    case Push => pref.push
    case Unlisted(_) => false
  }

  function DefaultChannels(pref: Preferences): seq<Channel>
  {
    (if pref.inApp then [InApp] else []) + (if pref.email then [Email] else [])
  }

  predicate Taken(rows: seq<Notification>, key: string)
  {
    exists i :: 0 <= i < |rows| && rows[i].key == key
  }

  /** One iteration of Notify's loop. */
  function NotifyOn(w: World, user: nat, base: string, ch: Channel, pref: Preferences, push: PushResult): World
  {
    var key := RowKey(base, ch);
    if !ChannelAllowed(pref, ch) || Taken(w.rows, key) then w
    else if ch == InApp then
      w.(rows := w.rows + [Notification(user, ch, key, Sent, 0)])
    else
      var status := if push == NoClient then Pending else Queued;
      w.(rows := w.rows + [Notification(user, ch, key, status, 0)],
         jobs := if push == Pushed then [|w.rows|] + w.jobs else w.jobs)
  }

  function NotifyAll(w: World, user: nat, base: string, chs: seq<Channel>, pref: Preferences,
                     push: seq<PushResult>): World
    requires |push| == |chs|
  {
    if chs == [] then w
    else
      var last := |chs| - 1;
      NotifyOn(NotifyAll(w, user, base, chs[..last], pref, push[..last]), user, base, chs[last], pref, push[last])
  }

  /** What the table can do to one iteration of Notify's loop. */
  datatype Fault = NoFault | LookupFails | CreateFails

  function Chosen(channels: seq<Channel>, pref: Preferences): seq<Channel>
  {
    if channels == [] then DefaultChannels(pref) else channels
  }

  /** An error ends the call at channel k, the ones before it done: the lookup of an allowed channel fails,
      or the creation of a row under a free key. */
  predicate StopsAt(w: World, user: nat, base: string, chs: seq<Channel>, pref: Preferences, push: seq<PushResult>,
                    faults: seq<Fault>, k: nat)
    requires |push| == |chs| == |faults| && k < |chs|
  {
    && ChannelAllowed(pref, chs[k])
    && (faults[k] == LookupFails
        || (faults[k] == CreateFails
            && !Taken(NotifyAll(w, user, base, chs[..k], pref, push[..k]).rows, RowKey(base, chs[k]))))
  }

  function AfterRefusal(row: Notification, max: int): Notification
  {
    var n := row.retries + 1;
    row.(retries := n, status := if n >= max then Failed else Pending)
  }

  /** How an attempt ends: Bounced and Missed are the ones that return an error. */
  datatype Verdict = Settled | Bounced | Missed

  /** One delivery attempt. A refusal that gives the row up returns no error. */
  function Process(w: World, id: nat, attempt: Attempt, max: int): (World, Verdict)
  {
    if id >= |w.rows| || attempt.RowUnreadable? then (w, Missed)
    else
      var row := w.rows[id];
      if row.status == Sent || row.channel == InApp || row.channel.Unlisted? then (w, Settled)
      else if row.channel == Email && attempt.UserUnreadable? then (w, Missed)
      else if row.channel == Email && attempt.SendRefused? then
        var row' := AfterRefusal(row, max);
        (w.(rows := w.rows[id := row'], log := w.log + [Refused(id)]),
         if row'.status == Failed then Settled else Bounced)
      else
        (w.(rows := w.rows[id := row.(status := Sent)],
            log := if row.channel == Email then w.log + [Accepted(id)] else w.log), Settled)
  }

  predicate Listable(row: Notification)
  {
    && (row.channel == Email || row.channel == Sms || row.channel == Push)
    && (row.status == Pending || row.status == Queued)
  }

  /** The first `limit` listable rows below `upTo`, oldest first. */
  function Listing(rows: seq<Notification>, upTo: nat, limit: nat): seq<nat>
    requires upTo <= |rows|
  {
    if upTo == 0 then []
    else
      var before := Listing(rows, upTo - 1, limit);
      if |before| < limit && Listable(rows[upTo - 1]) then before + [upTo - 1] else before
  }

  /** One statement of the API server, the dequeue loop, the poller, or one fault. */
  datatype Step =
    | Notify(user: nat, base: string, ch: Channel, pref: Preferences, push: PushResult)
    | Dequeue
    | WorkerProcess(attempt: Attempt)
    | WorkerRequeue(stored: bool)
    | PollList
    | PollProcess(attempt: Attempt)
    | PollRequeue(stored: bool)
    | LoseJob(position: nat)
    | WorkerCrash
    | PollerCrash

  /** The world after one step; a step whose statement is not the next one changes nothing. */
  function Next(w: World, step: Step, max: int): World
  {
    match step
    case Notify(user, base, ch, pref, push) => NotifyOn(w, user, base, ch, pref, push)
    case Dequeue =>
      if w.hand.Free? && |w.jobs| > 0 then
        w.(hand := Holding(w.jobs[|w.jobs| - 1]), jobs := w.jobs[..|w.jobs| - 1])
      else w
    case WorkerProcess(attempt) =>
      if w.hand.Holding? then
        var (w', verdict) := Process(w, w.hand.id, attempt, max);
        w'.(hand := if verdict.Settled? then Free else Returning(w.hand.id))
      else w
    case WorkerRequeue(stored) =>
      if w.hand.Returning? then
        w.(hand := Free, jobs := if stored then [w.hand.id] + w.jobs else w.jobs)
      else w
    case PollList =>
      if w.todo == [] && w.owed.None? then w.(todo := Listing(w.rows, |w.rows|, POLL_LIMIT)) else w
    case PollProcess(attempt) =>
      if w.todo != [] && w.owed.None? then
        var id := w.todo[0];
        var (w', verdict) := Process(w, id, attempt, max);
        w'.(todo := w.todo[1..], owed := if verdict.Settled? then None else Some(id),
            log := if verdict.Missed? then w'.log + [PollMissed(id)] else w'.log)
      else w
    case PollRequeue(stored) =>
      if w.owed.Some? then
        w.(owed := None, jobs := if stored then [w.owed.value] + w.jobs else w.jobs)
      else w
    case LoseJob(position) =>
      if position < |w.jobs| then w.(jobs := w.jobs[..position] + w.jobs[position + 1..]) else w
    case WorkerCrash => w.(hand := Free)
    case PollerCrash => w.(todo := [], owed := None)
  }

  function Run(w: World, steps: seq<Step>, max: int): World
  {
    if steps == [] then w
    else Next(Run(w, steps[..|steps| - 1], max), steps[|steps| - 1], max)
  }

  const EMPTY := World([], [], Free, [], None, [])

  // ---------------------------------------------------------------- what every step keeps

  /** Failures after which a row is given up: a configured maximum below one acts as one. */
  function Cap(max: int): nat
  {
    if max < 1 then 1 else max
  }

  function Times(log: seq<Entry>, e: Entry): nat
  {
    multiset(log)[e]
  }

  ghost predicate RowOk(w: World, max: int, i: nat)
    requires i < |w.rows|
  {
    var row := w.rows[i];
    && !row.channel.Unlisted?
    && (row.channel == InApp ==> row.status == Sent)
    && (row.status == Pending || row.status == Queued ==> row.retries < Cap(max))
    && (row.status == Failed ==> row.retries >= Cap(max))
    && row.retries == Times(w.log, Refused(i))
    && Times(w.log, Accepted(i)) == (if row.channel == Email && row.status == Sent then 1 else 0)
  }

  ghost predicate KeysDistinct(rows: seq<Notification>)
  {
    forall i, j :: 0 <= i < j < |rows| ==> rows[i].key != rows[j].key
  }

  /** Copies of a row's job that can still lead to an attempt. */
  function Copies(w: World, id: nat): nat
  {
    multiset(w.jobs)[id] + (if !w.hand.Free? && w.hand.id == id then 1 else 0) + (if w.owed == Some(id) then 1 else 0)
  }

  /** The log and the job copies mention only rows that exist. */
  ghost predicate Known(w: World)
  {
    forall id: nat :: id >= |w.rows| ==> Unmentioned(w, id)
  }

  ghost predicate Unmentioned(w: World, id: nat)
  {
    && Copies(w, id) == 0 && id !in w.todo
    && Times(w.log, Refused(id)) == 0 && Times(w.log, Accepted(id)) == 0 && Times(w.log, PollMissed(id)) == 0
  }

  ghost predicate Distinct(ids: seq<nat>)
  {
    forall i, j :: 0 <= i < j < |ids| ==> ids[i] != ids[j]
  }

  ghost predicate Ascending(ids: seq<nat>)
  {
    forall i, j :: 0 <= i < j < |ids| ==> ids[i] < ids[j]
  }

  /** Refusals a row can still meet beyond one for each job copy: every retry below the cap costs
      one and may add a copy, and a row given up can still be in the poll under way. */
  function Left(row: Notification, listed: bool, max: int): nat
  {
    if row.retries < Cap(max) then 2 * (Cap(max) - row.retries) - 1
    else if listed then 1 else 0
  }

  /** How many more refusals a row can still meet. */
  function Potential(w: World, id: nat, max: int): nat
    requires id < |w.rows|
  {
    if w.rows[id].status == Sent then 0 else Copies(w, id) + Left(w.rows[id], id in w.todo, max)
  }

  ghost predicate Bounded(w: World, max: int, id: nat)
    requires id < |w.rows|
  {
    w.rows[id].retries + Potential(w, id, max) <= 2 * Cap(max) + Times(w.log, PollMissed(id))
  }

  ghost predicate Valid(w: World, max: int)
  {
    && KeysDistinct(w.rows)
    && Known(w)
    && Distinct(w.todo)
    && (forall i :: 0 <= i < |w.rows| ==> RowOk(w, max, i))
    && (forall i :: 0 <= i < |w.rows| ==> Bounded(w, max, i))
  }

  lemma TimesSnoc(log: seq<Entry>, e: Entry, x: Entry)
    ensures Times(log + [e], x) == Times(log, x) + (if e == x then 1 else 0)
  {
  }

  lemma {:induction false} ListingMembers(rows: seq<Notification>, upTo: nat, limit: nat)
    requires upTo <= |rows|
    ensures var ids := Listing(rows, upTo, limit);
      && |ids| <= limit
      && Ascending(ids)
      && (forall k :: 0 <= k < |ids| ==> ids[k] < upTo && Listable(rows[ids[k]]))
  {
    if upTo > 0 {
      ListingMembers(rows, upTo - 1, limit);
    }
  }

  /** A listable row left out comes after all of a full list. */
  lemma {:induction false} ListingRest(rows: seq<Notification>, upTo: nat, limit: nat, i: nat)
    requires i < upTo <= |rows| && Listable(rows[i]) && i !in Listing(rows, upTo, limit)
    ensures var ids := Listing(rows, upTo, limit);
      |ids| == limit && forall k :: 0 <= k < |ids| ==> ids[k] < i
  {
    if i < upTo - 1 {
      ListingRest(rows, upTo - 1, limit, i);
    } else {
      ListingMembers(rows, i, limit);
    }
  }

  lemma ListingFacts(rows: seq<Notification>, upTo: nat, limit: nat)
    requires upTo <= |rows|
    ensures var ids := Listing(rows, upTo, limit);
      && |ids| <= limit
      && Ascending(ids) && Distinct(ids)
      && (forall k :: 0 <= k < |ids| ==> ids[k] < upTo && Listable(rows[ids[k]]))
      && (forall i :: 0 <= i < upTo && Listable(rows[i]) && i !in ids ==>
            |ids| == limit && forall k :: 0 <= k < |ids| ==> ids[k] < i)
  {
    ListingMembers(rows, upTo, limit);
    var ids := Listing(rows, upTo, limit);
    forall i | 0 <= i < upTo && Listable(rows[i]) && i !in ids
      ensures |ids| == limit && forall k :: 0 <= k < |ids| ==> ids[k] < i
    {
      ListingRest(rows, upTo, limit, i);
    }
  }

  /** Moving jobs about without adding a copy keeps everything. */
  lemma MovingKeeps(w: World, w': World, max: int)
    requires Valid(w, max)
    requires w'.rows == w.rows && w'.log == w.log
    requires forall id :: Copies(w', id) <= Copies(w, id)
    requires Distinct(w'.todo)
    requires forall id :: id in w'.todo ==> id < |w.rows| && (id in w.todo || Listable(w.rows[id]))
    ensures Valid(w', max)
  {
    forall i | 0 <= i < |w.rows| ensures RowOk(w', max, i) && Bounded(w', max, i) {
      assert RowOk(w, max, i) && Bounded(w, max, i);
      assert Copies(w', i) <= Copies(w, i);
    }
    forall id: nat | id >= |w'.rows| ensures Unmentioned(w', id) {
      assert Unmentioned(w, id) && Copies(w', id) <= Copies(w, id);
    }
  }

  lemma NotifyKeepsRow(w: World, user: nat, base: string, ch: Channel, pref: Preferences, push: PushResult, max: int,
                       i: nat)
    requires i < |w.rows| && RowOk(w, max, i) && Bounded(w, max, i)
    ensures var t := NotifyOn(w, user, base, ch, pref, push);
      i < |t.rows| && t.rows[i] == w.rows[i] && RowOk(t, max, i) && Bounded(t, max, i)
  {
    assert Copies(NotifyOn(w, user, base, ch, pref, push), i) == Copies(w, i);
  }

  lemma NotifyAddsRow(w: World, user: nat, base: string, ch: Channel, pref: Preferences, push: PushResult, max: int)
    requires Unmentioned(w, |w.rows|) && ChannelAllowed(pref, ch) && !Taken(w.rows, RowKey(base, ch))
    ensures var t := NotifyOn(w, user, base, ch, pref, push);
      |t.rows| == |w.rows| + 1 && RowOk(t, max, |w.rows|) && Bounded(t, max, |w.rows|)
  {
  }

  lemma NotifyKnown(w: World, user: nat, base: string, ch: Channel, pref: Preferences, push: PushResult)
    requires Known(w)
    ensures Known(NotifyOn(w, user, base, ch, pref, push))
  {
    var t := NotifyOn(w, user, base, ch, pref, push);
    forall id: nat | id >= |t.rows| ensures Unmentioned(t, id) {
      assert Unmentioned(w, id);
    }
  }

  lemma NotifyKeeps(w: World, user: nat, base: string, ch: Channel, pref: Preferences, push: PushResult, max: int)
    requires Valid(w, max)
    ensures Valid(NotifyOn(w, user, base, ch, pref, push), max)
  {
    var t := NotifyOn(w, user, base, ch, pref, push);
    NotifyKnown(w, user, base, ch, pref, push);
    if t != w {
      assert Unmentioned(w, |w.rows|);
      NotifyAddsRow(w, user, base, ch, pref, push, max);
    }
    forall i | 0 <= i < |w.rows| ensures t.rows[i] == w.rows[i] && RowOk(t, max, i) && Bounded(t, max, i) {
      NotifyKeepsRow(w, user, base, ch, pref, push, max, i);
    }
  }

  lemma AttemptKeepsRow(w: World, id: nat, attempt: Attempt, max: int, i: nat)
    requires id < |w.rows| && i < |w.rows| && RowOk(w, max, i)
    ensures var w' := Process(w, id, attempt, max).0; i < |w'.rows| && RowOk(w', max, i)
  {
    TimesSnoc(w.log, Refused(id), Refused(i));
    TimesSnoc(w.log, Refused(id), Accepted(i));
    TimesSnoc(w.log, Accepted(id), Refused(i));
    TimesSnoc(w.log, Accepted(id), Accepted(i));
  }

  lemma AttemptShape(w: World, id: nat, attempt: Attempt, max: int)
    requires id < |w.rows|
    ensures var w' := Process(w, id, attempt, max).0;
      && |w'.rows| == |w.rows|
      && (forall e :: e != Refused(id) && e != Accepted(id) ==> Times(w'.log, e) == Times(w.log, e))
      && (forall i :: 0 <= i < |w.rows| ==> w'.rows[i].key == w.rows[i].key)
      && (forall i :: 0 <= i < |w.rows| && i != id ==> w'.rows[i] == w.rows[i])
  {
  }

  /** What an attempt does to the table and the log, wherever it is made from. */
  lemma AttemptFacts(w: World, id: nat, attempt: Attempt, max: int)
    requires Valid(w, max) && id < |w.rows|
    ensures var (w', verdict) := Process(w, id, attempt, max);
      && |w'.rows| == |w.rows|
      && KeysDistinct(w'.rows)
      && (forall i :: 0 <= i < |w.rows| ==> RowOk(w', max, i))
      && (forall e :: e != Refused(id) && e != Accepted(id) ==> Times(w'.log, e) == Times(w.log, e))
      && (forall i :: 0 <= i < |w.rows| && i != id ==> w'.rows[i] == w.rows[i])
  {
    AttemptShape(w, id, attempt, max);
    forall i | 0 <= i < |w.rows| ensures RowOk(Process(w, id, attempt, max).0, max, i) {
      AttemptKeepsRow(w, id, attempt, max, i);
    }
  }

  /** What an attempt costs the row it is made on. */
  lemma AttemptSpends(w: World, id: nat, attempt: Attempt, max: int)
    requires id < |w.rows| && RowOk(w, max, id)
    ensures var (w', verdict) := Process(w, id, attempt, max);
      var row, row' := w.rows[id], w'.rows[id];
      || (row'.status == Sent && row'.retries == row.retries)
      || (verdict.Missed? && w' == w)
      || (verdict.Bounced? && row'.retries == row.retries + 1 < Cap(max) && row'.status != Sent && row.status != Sent)
      || (verdict.Settled? && row'.retries == row.retries + 1 >= Cap(max) && row'.status != Sent && row.status != Sent)
    ensures var (w', verdict) := Process(w, id, attempt, max); verdict.Missed? ==> w' == w
  {
  }

  /** A row no attempt is made on, none of whose copies moves, keeps its bound. */
  lemma SparedBounded(w: World, t: World, max: int, i: nat)
    requires i < |w.rows| && i < |t.rows| && Bounded(w, max, i)
    requires t.rows[i] == w.rows[i] && Copies(t, i) == Copies(w, i) && (i in t.todo ==> i in w.todo)
    requires Times(t.log, PollMissed(i)) == Times(w.log, PollMissed(i))
    ensures Bounded(t, max, i)
  {
  }

  /** The row an attempt is made on keeps its bound if the attempt used up a copy of its job or its place
      in the poll, and put a copy back only on an error. */
  lemma SpentBounded(w: World, p: World, t: World, id: nat, attempt: Attempt, max: int, polled: bool)
    requires Valid(w, max) && id < |w.rows|
    requires p == Process(w, id, attempt, max).0 && t.rows == p.rows
    requires polled ==> id in w.todo && id !in t.todo
    requires !polled ==> (id in t.todo ==> id in w.todo) && Copies(w, id) > 0
    requires var settled := Process(w, id, attempt, max).1.Settled?;
      Copies(t, id) == Copies(w, id) + (if polled then if settled then 0 else 1 else if settled then -1 else 0)
    requires var missed := polled && Process(w, id, attempt, max).1.Missed?;
      Times(t.log, PollMissed(id)) == Times(w.log, PollMissed(id)) + (if missed then 1 else 0)
    ensures id < |t.rows| && Bounded(t, max, id)
  {
    assert RowOk(w, max, id) && Bounded(w, max, id);
    AttemptSpends(w, id, attempt, max);
  }

  lemma WorkerBounded(w: World, attempt: Attempt, max: int, i: nat)
    requires Valid(w, max) && w.hand.Holding? && w.hand.id < |w.rows| && i < |w.rows|
    ensures Bounded(Next(w, WorkerProcess(attempt), max), max, i)
  {
    var id := w.hand.id;
    AttemptFacts(w, id, attempt, max);
    var p := Process(w, id, attempt, max).0;
    var t := Next(w, WorkerProcess(attempt), max);
    assert Times(t.log, PollMissed(i)) == Times(w.log, PollMissed(i));
    if i == id {
      SpentBounded(w, p, t, id, attempt, max, false);
    } else {
      SparedBounded(w, t, max, i);
    }
  }

  lemma PollCopies(w: World, attempt: Attempt, max: int, i: nat)
    requires w.todo != [] && w.owed.None?
    ensures var verdict := Process(w, w.todo[0], attempt, max).1;
      var hit := i == w.todo[0] && !verdict.Settled?;
      Copies(Next(w, PollProcess(attempt), max), i) == Copies(w, i) + if hit then 1 else 0
  {
  }

  lemma PollMisses(w: World, attempt: Attempt, max: int, i: nat)
    requires w.todo != [] && w.owed.None?
    ensures var verdict := Process(w, w.todo[0], attempt, max).1;
      var hit := i == w.todo[0] && verdict.Missed?;
      Times(Next(w, PollProcess(attempt), max).log, PollMissed(i)) == Times(w.log, PollMissed(i)) + if hit then 1 else 0
  {
  }

  lemma PollBounded(w: World, attempt: Attempt, max: int, i: nat)
    requires Valid(w, max) && w.todo != [] && w.owed.None? && w.todo[0] < |w.rows| && i < |w.rows|
    ensures Bounded(Next(w, PollProcess(attempt), max), max, i)
  {
    var id := w.todo[0];
    AttemptFacts(w, id, attempt, max);
    PollCopies(w, attempt, max, i);
    PollMisses(w, attempt, max, i);
    var t := Next(w, PollProcess(attempt), max);
    assert i in t.todo ==> i in w.todo;
    if i == id {
      SpentBounded(w, Process(w, id, attempt, max).0, t, id, attempt, max, true);
    } else {
      SparedBounded(w, t, max, i);
    }
  }

  lemma ProcessUnmentioned(w: World, id: nat, attempt: Attempt, max: int, x: nat)
    requires Valid(w, max) && id < |w.rows| <= x
    ensures var (p, _) := Process(w, id, attempt, max); Unmentioned(p, x)
  {
    assert Unmentioned(w, x);
  }

  lemma WorkerProcessKeeps(w: World, attempt: Attempt, max: int)
    requires Valid(w, max) && w.hand.Holding?
    ensures Valid(Next(w, WorkerProcess(attempt), max), max)
  {
    var id := w.hand.id;
    assert Copies(w, id) > 0 && (id >= |w.rows| ==> Unmentioned(w, id));
    AttemptFacts(w, id, attempt, max);
    var w' := Next(w, WorkerProcess(attempt), max);
    var (p, _) := Process(w, id, attempt, max);
    forall x: nat | x >= |w.rows| ensures Unmentioned(w', x) {
      ProcessUnmentioned(w, id, attempt, max, x);
    }
    forall i | 0 <= i < |w.rows| ensures RowOk(w', max, i) && Bounded(w', max, i) {
      assert RowOk(p, max, i);
      WorkerBounded(w, attempt, max, i);
    }
  }

  lemma PollRows(w: World, attempt: Attempt, max: int)
    requires Valid(w, max) && w.todo != [] && w.owed.None? && w.todo[0] < |w.rows|
    ensures var w' := Next(w, PollProcess(attempt), max);
      |w'.rows| == |w.rows| && KeysDistinct(w'.rows) && Distinct(w'.todo)
    ensures forall i :: 0 <= i < |w.rows| ==> RowOk(Next(w, PollProcess(attempt), max), max, i)
  {
    AttemptFacts(w, w.todo[0], attempt, max);
    var p := Process(w, w.todo[0], attempt, max).0;
    forall i | 0 <= i < |w.rows| ensures RowOk(Next(w, PollProcess(attempt), max), max, i) {
      assert RowOk(p, max, i);
    }
  }

  lemma PollUnmentioned(w: World, attempt: Attempt, max: int, x: nat)
    requires w.todo != [] && w.owed.None? && w.todo[0] < |w.rows| <= x && Unmentioned(w, x)
    ensures Unmentioned(Next(w, PollProcess(attempt), max), x)
  {
    AttemptShape(w, w.todo[0], attempt, max);
    PollCopies(w, attempt, max, x);
    PollMisses(w, attempt, max, x);
  }

  lemma PollKnown(w: World, attempt: Attempt, max: int)
    requires Known(w) && w.todo != [] && w.owed.None? && w.todo[0] < |w.rows|
    ensures Known(Next(w, PollProcess(attempt), max))
  {
    AttemptShape(w, w.todo[0], attempt, max);
    forall x: nat | x >= |w.rows| ensures Unmentioned(Next(w, PollProcess(attempt), max), x) {
      PollUnmentioned(w, attempt, max, x);
    }
  }

  lemma PollProcessKeeps(w: World, attempt: Attempt, max: int)
    requires Valid(w, max) && w.todo != [] && w.owed.None?
    ensures Valid(Next(w, PollProcess(attempt), max), max)
  {
    TodoKnown(w);
    assert w.todo[0] in w.todo;
    PollRows(w, attempt, max);
    PollKnown(w, attempt, max);
    forall i | 0 <= i < |w.rows| ensures Bounded(Next(w, PollProcess(attempt), max), max, i) {
      PollBounded(w, attempt, max, i);
    }
  }

  lemma DequeueKeeps(w: World, max: int)
    requires Valid(w, max) && w.hand.Free? && |w.jobs| > 0
    ensures Valid(Next(w, Dequeue, max), max)
  {
    var w' := Next(w, Dequeue, max);
    assert w.jobs == w'.jobs + [w.jobs[|w.jobs| - 1]];
    TodoKnown(w);
    MovingKeeps(w, w', max);
  }

  lemma TodoKnown(w: World)
    requires Known(w)
    ensures forall id :: id in w.todo ==> id < |w.rows|
  {
    forall id | id in w.todo ensures id < |w.rows| {
      assert id >= |w.rows| ==> Unmentioned(w, id);
    }
  }

  lemma LoseJobKeeps(w: World, k: nat, max: int)
    requires Valid(w, max) && k < |w.jobs|
    ensures Valid(Next(w, LoseJob(k), max), max)
  {
    assert w.jobs == w.jobs[..k] + [w.jobs[k]] + w.jobs[k + 1..];
    TodoKnown(w);
    MovingKeeps(w, Next(w, LoseJob(k), max), max);
  }

  lemma PollListKeeps(w: World, max: int)
    requires Valid(w, max) && w.todo == []
    ensures Valid(Next(w, PollList, max), max)
  {
    ListingFacts(w.rows, |w.rows|, POLL_LIMIT);
    var w' := Next(w, PollList, max);
    MovingKeeps(w, w', max);
  }

  lemma RequeueKeeps(w: World, step: Step, max: int)
    requires Valid(w, max) && (step.WorkerRequeue? || step.PollRequeue? || step.WorkerCrash? || step.PollerCrash?)
    ensures Valid(Next(w, step, max), max)
  {
    TodoKnown(w);
    MovingKeeps(w, Next(w, step, max), max);
  }

  lemma NextKeeps(w: World, step: Step, max: int)
    requires Valid(w, max)
    ensures Valid(Next(w, step, max), max)
  {
    match step
    case Notify(user, base, ch, pref, push) => NotifyKeeps(w, user, base, ch, pref, push, max);
    case WorkerProcess(attempt) => if w.hand.Holding? { WorkerProcessKeeps(w, attempt, max); }
    case PollProcess(attempt) => if w.todo != [] && w.owed.None? { PollProcessKeeps(w, attempt, max); }
    case PollList => if w.todo == [] { PollListKeeps(w, max); }
    case Dequeue => if w.hand.Free? && |w.jobs| > 0 { DequeueKeeps(w, max); }
    case LoseJob(k) => if k < |w.jobs| { LoseJobKeeps(w, k, max); }
    case _ => RequeueKeeps(w, step, max);
  }

  /** Everything above holds in every world any run reaches. */
  lemma {:induction false} RunKeeps(w: World, steps: seq<Step>, max: int)
    requires Valid(w, max)
    ensures Valid(Run(w, steps, max), max)
  {
    if steps != [] {
      var before := steps[..|steps| - 1];
      RunKeeps(w, before, max);
      NextKeeps(Run(w, before, max), steps[|steps| - 1], max);
    }
  }

  lemma EmptyValid(max: int)
    ensures Valid(EMPTY, max)
  {
  }

  // ---------------------------------------------------------------- what one operation leaves

  /** An iteration adds a row exactly if the preferences have the channel on and no row has the key. The row is the
      recipient's; in-app rows are sent, and any other is one the poller finds, with a job if the push was stored. */
  lemma NotifyRowOutcome(w: World, user: nat, base: string, ch: Channel, pref: Preferences, push: PushResult)
    ensures var t := NotifyOn(w, user, base, ch, pref, push);
      var key := base + ":" + ChannelName(ch);
      var on := (ch == InApp && pref.inApp) || (ch == Email && pref.email) || (ch == Sms && pref.sms)
                || (ch == Push && pref.push);
      var free := forall row :: row in w.rows ==> row.key != key;
      && t == w.(rows := t.rows, jobs := t.jobs)
      && (!(on && free) ==> t == w)
      && (on && free ==>
            && |t.rows| == |w.rows| + 1 && t.rows[..|w.rows|] == w.rows
            && var row := t.rows[|w.rows|];
            && row.user == user && row.channel == ch && row.key == key && row.retries == 0
            && (if ch == InApp then row.status == Sent else Listable(row))
            && (row.status == Pending <==> ch != InApp && push == NoClient)
            && t.jobs == if ch != InApp && push == Pushed then [|w.rows|] + w.jobs else w.jobs)
  {
    var key := base + ":" + ChannelName(ch);
    if Taken(w.rows, key) {
      var i :| 0 <= i < |w.rows| && w.rows[i].key == key;
      assert w.rows[i] in w.rows;
    }
  }

  /** When an attempt returns an error before sending, when it leaves its row sent, and what a refusal does to it. */
  lemma AttemptOutcome(w: World, id: nat, attempt: Attempt, max: int)
    requires id < |w.rows|
    ensures var (t, verdict) := Process(w, id, attempt, max);
      var row := w.rows[id];
      var open := !attempt.RowUnreadable? && row.status != Sent;
      var accepted := open && (row.channel in {Sms, Push} || (row.channel == Email && attempt.SendAccepted?));
      var refused := open && row.channel == Email && attempt.SendRefused?;
      && (verdict.Missed? <==> attempt.RowUnreadable? || (open && row.channel == Email && attempt.UserUnreadable?))
      && |t.rows| == |w.rows| && t == w.(rows := t.rows, log := t.log)
      && (forall i :: 0 <= i < |w.rows| && i != id ==> t.rows[i] == w.rows[i])
      && (accepted ==> t.rows[id] == row.(status := Sent) && verdict.Settled?)
      && (refused ==>
            && t.rows[id].retries == row.retries + 1
            && t.rows[id] == row.(status := t.rows[id].status, retries := t.rows[id].retries)
            && t.rows[id].status == (if row.retries + 1 < max then Pending else Failed)
            && (verdict.Bounced? <==> row.retries + 1 < max))
      && (!accepted && !refused ==> t == w && !verdict.Bounced?)
  {
    assert w.rows[id := w.rows[id]] == w.rows;
  }

  /** An attempt on a row that is not there is an error. */
  lemma AttemptOnNothing(w: World, id: nat, attempt: Attempt, max: int)
    requires id >= |w.rows|
    ensures Process(w, id, attempt, max) == (w, Missed)
  {
  }

  /** A turn of the worker attempts the oldest job, and puts it back as the newest exactly on an error whose
      push is stored; with no job it does nothing. */
  lemma WorkerTurnOutcome(w: World, attempt: Attempt, stored: bool, max: int)
    requires w.hand.Free?
    ensures var t := Run(w, [Dequeue, WorkerProcess(attempt), WorkerRequeue(stored)], max);
      && (w.jobs == [] ==> t == w)
      && (w.jobs != [] ==>
            var n := |w.jobs| - 1;
            var (p, verdict) := Process(w, w.jobs[n], attempt, max);
            && t.rows == p.rows && t.log == p.log && t.hand.Free? && t.todo == w.todo && t.owed == w.owed
            && t.jobs == (if !verdict.Settled? && stored then [w.jobs[n]] else []) + w.jobs[..n])
  {
    RunThree(w, Dequeue, WorkerProcess(attempt), WorkerRequeue(stored), max);
  }

  /** The poller attempts the next row it listed, and puts its job back as the newest exactly on an error whose
      push is stored. */
  lemma PollTurnOutcome(w: World, attempt: Attempt, stored: bool, max: int)
    requires w.todo != [] && w.owed.None?
    ensures var t := Next(Next(w, PollProcess(attempt), max), PollRequeue(stored), max);
      var (p, verdict) := Process(w, w.todo[0], attempt, max);
      && t.rows == p.rows && t.todo == w.todo[1..] && t.owed.None? && t.hand == w.hand
      && t.jobs == (if !verdict.Settled? && stored then [w.todo[0]] else []) + w.jobs
  {
  }

  /** A call with no channels named goes to the in-app and e-mail channels the recipient has on. */
  lemma ChosenIff(channels: seq<Channel>, pref: Preferences, ch: Channel)
    ensures ch in Chosen(channels, pref) <==>
      if channels != [] then ch in channels
      else (ch == InApp && pref.inApp) || (ch == Email && pref.email)
  {
  }

  /** The faults: a job is lost from the list, the worker dies with the job in hand, the poller with its poll. */
  lemma FaultOutcome(w: World, position: nat, max: int)
    ensures position < |w.jobs| ==>
      var t := Next(w, LoseJob(position), max);
      t == w.(jobs := t.jobs) && w.jobs == t.jobs[..position] + [w.jobs[position]] + t.jobs[position..]
    ensures Next(w, WorkerCrash, max) == w.(hand := Free)
    ensures Next(w, PollerCrash, max) == w.(todo := [], owed := None)
  {
    if position < |w.jobs| {
      var t := Next(w, LoseJob(position), max);
      assert t.jobs[..position] == w.jobs[..position] && t.jobs[position..] == w.jobs[position + 1..];
    }
  }

  // ---------------------------------------------------------------- the job list is a queue

  /** The jobs on the list, the one to be popped next first. */
  function OldestFirst(jobs: seq<nat>): seq<nat>
  {
    seq(|jobs|, i requires 0 <= i < |jobs| => jobs[|jobs| - 1 - i])
  }

  /** The job a step pushes: of a new row, or of a row whose attempt ended in an error. */
  function Pushes(w: World, step: Step): seq<nat>
  {
    match step
    case Notify(user, base, ch, pref, push) =>
      var added := |NotifyOn(w, user, base, ch, pref, push).rows| > |w.rows|;
      if added && ch != InApp && push == Pushed then [|w.rows|] else []
    case WorkerRequeue(stored) => if stored && w.hand.Returning? then [w.hand.id] else []
    case PollRequeue(stored) => if stored && w.owed.Some? then [w.owed.value] else []
    case _ => []
  }

  /** The job a step puts in the worker's empty hand. */
  function Pops(w: World, step: Step, max: int): seq<nat>
  {
    var t := Next(w, step, max);
    if w.hand.Free? && t.hand.Holding? then [t.hand.id] else []
  }

  function PushedIn(w: World, steps: seq<Step>, max: int): seq<nat>
  {
    if steps == [] then []
    else
      var n := |steps| - 1;
      PushedIn(w, steps[..n], max) + Pushes(Run(w, steps[..n], max), steps[n])
  }

  function PoppedIn(w: World, steps: seq<Step>, max: int): seq<nat>
  {
    if steps == [] then []
    else
      var n := |steps| - 1;
      PoppedIn(w, steps[..n], max) + Pops(Run(w, steps[..n], max), steps[n], max)
  }

  lemma PushStep(w: World, step: Step, max: int)
    requires step.Notify? || step.WorkerRequeue? || step.PollRequeue?
    ensures Next(w, step, max).jobs == Pushes(w, step) + w.jobs && |Pushes(w, step)| <= 1
    ensures Pops(w, step, max) == []
  {
  }

  lemma PopStep(w: World, max: int)
    ensures Pops(w, Dequeue, max) != [] <==> w.hand.Free? && w.jobs != []
    ensures w.jobs == Next(w, Dequeue, max).jobs + Pops(w, Dequeue, max)
  {
  }

  lemma OtherStep(w: World, step: Step, max: int)
    requires step.WorkerProcess? || step.PollList? || step.PollProcess? || step.WorkerCrash? || step.PollerCrash?
    ensures Next(w, step, max).jobs == w.jobs && Pops(w, step, max) == []
  {
  }

  lemma OldestFirstJoin(newer: seq<nat>, older: seq<nat>)
    requires |newer| <= 1 || |older| <= 1
    ensures |newer| <= 1 ==> OldestFirst(newer + older) == OldestFirst(older) + newer
    ensures |older| <= 1 ==> OldestFirst(newer + older) == older + OldestFirst(newer)
  {
  }

  lemma QueueStep(w: World, step: Step, max: int)
    requires !step.LoseJob?
    ensures Pops(w, step, max) + OldestFirst(Next(w, step, max).jobs) == OldestFirst(w.jobs) + Pushes(w, step)
    ensures Pops(w, step, max) != [] <==> step.Dequeue? && w.hand.Free? && w.jobs != []
  {
    var t := Next(w, step, max);
    if step.Notify? || step.WorkerRequeue? || step.PollRequeue? {
      PushStep(w, step, max);
      OldestFirstJoin(Pushes(w, step), w.jobs);
    } else if step.Dequeue? {
      PopStep(w, max);
      OldestFirstJoin(t.jobs, Pops(w, step, max));
    } else {
      OtherStep(w, step, max);
    }
  }

  lemma Chained(out: seq<nat>, mid: seq<nat>, start: seq<nat>, into: seq<nat>, pop: seq<nat>, end: seq<nat>,
                push: seq<nat>)
    requires out + mid == start + into && pop + end == mid + push
    ensures (out + pop) + end == start + (into + push)
  {
    assert (out + pop) + end == out + (pop + end);
    assert out + (mid + push) == (out + mid) + push;
    assert (start + into) + push == start + (into + push);
  }

  /** On runs that lose no job the list is first in, first out, whatever crashes: what was on it and what was pushed,
      in that order, is what was popped and what is left on it. */
  lemma {:induction false} FirstInFirstOut(w: World, steps: seq<Step>, max: int)
    requires forall step :: step in steps ==> !step.LoseJob?
    ensures PoppedIn(w, steps, max) + OldestFirst(Run(w, steps, max).jobs)
         == OldestFirst(w.jobs) + PushedIn(w, steps, max)
  {
    if steps != [] {
      var n := |steps| - 1;
      var before := Run(w, steps[..n], max);
      assert steps[n] in steps && forall step :: step in steps[..n] ==> step in steps;
      FirstInFirstOut(w, steps[..n], max);
      QueueStep(before, steps[n], max);
      Chained(PoppedIn(w, steps[..n], max), OldestFirst(before.jobs), OldestFirst(w.jobs), PushedIn(w, steps[..n], max),
              Pops(before, steps[n], max), OldestFirst(Run(w, steps, max).jobs), Pushes(before, steps[n]));
    }
  }

  /** So a job with k before it is the one in hand after the dequeue that takes k + 1 jobs. */
  lemma {:induction false} JobTurn(w: World, steps: seq<Step>, max: int, position: nat)
    requires forall step :: step in steps ==> !step.LoseJob?
    requires position < |w.jobs| && |PoppedIn(w, steps, max)| >= |w.jobs| - position
    ensures PoppedIn(w, steps, max)[|w.jobs| - position - 1] == w.jobs[position]
  {
    FirstInFirstOut(w, steps, max);
    SamePlace(PoppedIn(w, steps, max), OldestFirst(Run(w, steps, max).jobs), OldestFirst(w.jobs),
              PushedIn(w, steps, max), |w.jobs| - position - 1);
  }

  lemma SamePlace(a: seq<nat>, b: seq<nat>, c: seq<nat>, d: seq<nat>, k: nat)
    requires a + b == c + d && k < |a| && k < |c|
    ensures a[k] == c[k]
  {
    assert (a + b)[k] == a[k] && (c + d)[k] == c[k];
  }

  /** No push overtakes a waiting job. */
  lemma NoOvertaking(w: World, step: Step, max: int)
    requires w.hand.Free? && w.jobs != [] && (step.Notify? || step.PollRequeue?)
    ensures Next(Next(w, step, max), Dequeue, max).hand == Next(w, Dequeue, max).hand == Holding(OldestFirst(w.jobs)[0])
  {
  }

  // ---------------------------------------------------------------- termination

  /** Over any interleaving with lost jobs, failed requeues and crashes, a row is refused at most
      2 * Cap times plus once for each poll of it that failed before sending. */
  lemma {:induction false} RefusalsBounded(steps: seq<Step>, max: int, id: nat)
    requires id < |Run(EMPTY, steps, max).rows|
    ensures var w := Run(EMPTY, steps, max);
      Times(w.log, Refused(id)) == w.rows[id].retries <= 2 * Cap(max) + Times(w.log, PollMissed(id))
  {
    EmptyValid(max);
    RunKeeps(EMPTY, steps, max);
    var w := Run(EMPTY, steps, max);
    assert RowOk(w, max, id) && Bounded(w, max, id);
  }

  lemma {:induction false} RunConcat(w: World, a: seq<Step>, b: seq<Step>, max: int)
    ensures Run(w, a + b, max) == Run(Run(w, a, max), b, max)
  {
    if b == [] {
      assert a + b == a;
    } else {
      var n := |b| - 1;
      RunConcat(w, a, b[..n], max);
      assert (a + b)[..|a + b| - 1] == a + b[..n];
    }
  }

  /** A world with one e-mail row, nothing in hand, `copies` jobs for the row and `misses` polls of it missed. */
  ghost predicate Stage(w: World, retries: nat, copies: nat, misses: nat, max: int)
  {
    && |w.rows| == 1 && w.rows[0].channel == Email && w.rows[0].retries == retries
    && w.rows[0].status in (if retries < Cap(max) then {Pending, Queued} else {Failed})
    && w.jobs == seq(copies, _ => 0) && w.hand == Free && w.todo == [] && w.owed == None
    && Times(w.log, PollMissed(0)) == misses
  }

  const MISSED_TURN := [PollList, PollProcess(RowUnreadable), PollRequeue(true)]
  const POLL_TURN := [PollList, PollProcess(SendRefused), PollRequeue(true)]
  const WORKER_TURN := [Dequeue, WorkerProcess(SendRefused), WorkerRequeue(true)]

  lemma RunOne(w: World, a: Step, max: int)
    ensures Run(w, [a], max) == Next(w, a, max)
  {
  }

  lemma RunTwo(w: World, a: Step, b: Step, max: int)
    ensures Run(w, [a, b], max) == Next(Next(w, a, max), b, max)
  {
    RunOne(w, a, max);
    assert [a, b][..1] == [a];
  }

  lemma RunThree(w: World, a: Step, b: Step, c: Step, max: int)
    ensures Run(w, [a, b, c], max) == Next(Next(Next(w, a, max), b, max), c, max)
  {
    RunTwo(w, a, b, max);
    assert [a, b, c][..2] == [a, b];
  }

  lemma StageListed(w: World, retries: nat, copies: nat, misses: nat, max: int)
    requires Stage(w, retries, copies, misses, max) && retries < Cap(max)
    ensures Next(w, PollList, max) == w.(todo := [0])
  {
    assert Listing(w.rows, 0, POLL_LIMIT) == [];
    assert Listing(w.rows, 1, POLL_LIMIT) == [0];
  }

  lemma PollTurnMissed(w: World, copies: nat, misses: nat, max: int)
    requires Stage(w, 0, copies, misses, max)
    ensures Stage(Run(w, MISSED_TURN, max), 0, copies + 1, misses + 1, max)
  {
    RunThree(w, PollList, PollProcess(RowUnreadable), PollRequeue(true), max);
    StageListed(w, 0, copies, misses, max);
    assert [0] + seq(copies, _ => 0) == seq(copies + 1, _ => 0);
  }

  lemma ListedRefused(w: World, retries: nat, copies: nat, misses: nat, max: int)
    requires Stage(w, retries, copies, misses, max) && retries < Cap(max)
    ensures var t := Next(w.(todo := [0]), PollProcess(SendRefused), max);
      && t.rows == [AfterRefusal(w.rows[0], max)] && t.jobs == w.jobs && t.hand == Free && t.todo == []
      && t.owed == (if retries + 1 < Cap(max) then Some(0) else None)
      && Times(t.log, PollMissed(0)) == misses
  {
  }

  lemma PollTurnRefused(w: World, retries: nat, copies: nat, misses: nat, max: int)
    requires Stage(w, retries, copies, misses, max) && retries < Cap(max)
    ensures var after := if retries + 1 < Cap(max) then copies + 1 else copies;
      Stage(Run(w, POLL_TURN, max), retries + 1, after, misses, max)
  {
    RunThree(w, PollList, PollProcess(SendRefused), PollRequeue(true), max);
    StageListed(w, retries, copies, misses, max);
    ListedRefused(w, retries, copies, misses, max);
    assert [0] + seq(copies, _ => 0) == seq(copies + 1, _ => 0);
  }

  lemma WorkerTurnRefused(w: World, retries: nat, copies: nat, misses: nat, max: int)
    requires Stage(w, retries, copies, misses, max) && retries >= Cap(max) && copies > 0
    ensures Stage(Run(w, WORKER_TURN, max), retries + 1, copies - 1, misses, max)
  {
    RunThree(w, Dequeue, WorkerProcess(SendRefused), WorkerRequeue(true), max);
    assert seq(copies, _ => 0)[..copies - 1] == seq(copies - 1, _ => 0);
  }

  lemma {:induction false} MissedTurns(w: World, n: nat, max: int) returns (steps: seq<Step>)
    requires Stage(w, 0, 1, 0, max)
    ensures Stage(Run(w, steps, max), 0, 1 + n, n, max)
  {
    steps := [];
    if n > 0 {
      var before := MissedTurns(w, n - 1, max);
      PollTurnMissed(Run(w, before, max), n, n - 1, max);
      RunConcat(w, before, MISSED_TURN, max);
      steps := before + MISSED_TURN;
    }
  }

  lemma {:induction false} PollTurns(w: World, copies: nat, misses: nat, n: nat, max: int) returns (steps: seq<Step>)
    requires Stage(w, 0, copies, misses, max) && n <= Cap(max)
    ensures Stage(Run(w, steps, max), n, if n < Cap(max) then copies + n else copies + n - 1, misses, max)
  {
    steps := [];
    if n > 0 {
      var before := PollTurns(w, copies, misses, n - 1, max);
      PollTurnRefused(Run(w, before, max), n - 1, copies + n - 1, misses, max);
      RunConcat(w, before, POLL_TURN, max);
      steps := before + POLL_TURN;
    }
  }

  lemma {:induction false} WorkerTurns(w: World, copies: nat, misses: nat, n: nat, max: int) returns (steps: seq<Step>)
    requires Stage(w, Cap(max), copies, misses, max) && n <= copies
    ensures Stage(Run(w, steps, max), Cap(max) + n, copies - n, misses, max)
  {
    steps := [];
    if n > 0 {
      var before := WorkerTurns(w, copies, misses, n - 1, max);
      WorkerTurnRefused(Run(w, before, max), Cap(max) + n - 1, copies - n + 1, misses, max);
      RunConcat(w, before, WORKER_TURN, max);
      steps := before + WORKER_TURN;
    }
  }

  /** The bound is exact for every configured maximum and every number of missed polls: some run reaches it.
      So, with no poll missed, a row may be retried up to twice as often as the maximum says. */
  lemma {:induction false} RefusalBoundAttained(user: nat, base: string, max: int, misses: nat)
    returns (steps: seq<Step>)
    ensures var w := Run(EMPTY, steps, max);
      |w.rows| == 1 && w.rows[0].retries == 2 * Cap(max) + misses && Times(w.log, PollMissed(0)) == misses
  {
    var first := [Notify(user, base, Email, Preferences(true, true, false, false), Pushed)];
    RunOne(EMPTY, first[0], max);
    var w := Run(EMPTY, first, max);
    assert w.jobs == [0] && [0] == seq(1, _ => 0);
    var lost := MissedTurns(w, misses, max);
    var v := Run(w, lost, max);
    var polls := PollTurns(v, 1 + misses, misses, Cap(max), max);
    var turns := WorkerTurns(Run(v, polls, max), misses + Cap(max), misses, misses + Cap(max), max);
    RunConcat(v, polls, turns, max);
    RunConcat(w, lost, polls + turns, max);
    RunConcat(EMPTY, first, lost + (polls + turns), max);
    steps := first + (lost + (polls + turns));
  }

  /** An attempt keeps the retry count within the configured maximum exactly when it does not refuse a row already
      given up; under a maximum below one, exactly when it refuses no row. */
  lemma RetriesWithinMaximumIff(w: World, id: nat, attempt: Attempt, max: int)
    requires Valid(w, max) && id < |w.rows| && w.rows[id].retries <= max
    ensures id < |Process(w, id, attempt, max).0.rows|
    ensures var row := w.rows[id];
      var beyond := row.status == Failed || (max < 1 && row.status != Sent);
      Process(w, id, attempt, max).0.rows[id].retries <= max
      <==> !(beyond && row.channel == Email && attempt.SendRefused?)
  {
    assert RowOk(w, max, id);
  }

  // ---------------------------------------------------------------- delivery without Redis

  function PollSteps(n: nat): seq<Step>
  {
    seq(n, _ => PollProcess(SendAccepted))
  }

  ghost predicate Sendable(w: World)
  {
    w.owed.None? && forall id :: id in w.todo ==> id < |w.rows| && w.rows[id].channel in {Email, Sms, Push}
  }

  /** The poller's next row, accepted, is sent; nothing else changes in the table. */
  lemma PollAccepted(w: World, max: int)
    requires Sendable(w) && w.todo != []
    ensures var next := Next(w, PollProcess(SendAccepted), max);
      && Sendable(next) && next.todo == w.todo[1..] && w.todo[0] in w.todo && w.todo[0] < |w.rows|
      && next.rows == w.rows[w.todo[0] := w.rows[w.todo[0]].(status := Sent)]
  {
    var id := w.todo[0];
    assert id in w.todo;
    assert w.rows[id].status == Sent ==> w.rows[id] == w.rows[id].(status := Sent);
    assert forall x :: x in w.todo[1..] ==> x in w.todo;
  }

  lemma {:induction false} PollDrains(w: World, max: int)
    requires Sendable(w)
    ensures var t := Run(w, PollSteps(|w.todo|), max);
      && t.todo == [] && |t.rows| == |w.rows|
      && forall i :: 0 <= i < |w.rows| ==> t.rows[i] == if i in w.todo then w.rows[i].(status := Sent) else w.rows[i]
    decreases |w.todo|
  {
    if w.todo != [] {
      var step := PollProcess(SendAccepted);
      var rest := PollSteps(|w.todo| - 1);
      PollAccepted(w, max);
      PollDrains(Next(w, step, max), max);
      assert Run(w, PollSteps(|w.todo|), max) == Run(Next(w, step, max), rest, max) by {
        RunOne(w, step, max);
        RunConcat(w, [step], rest, max);
        assert PollSteps(|w.todo|) == [step] + rest;
      }
      assert w.todo == [w.todo[0]] + w.todo[1..];
    }
  }

  /** A poll the mail server accepts leaves every row it lists sent, whatever became of the job list; and
      it lists every undelivered external row, or the 50 oldest. */
  lemma PollDelivers(w: World, max: int)
    requires Valid(w, max) && w.todo == [] && w.owed.None?
    ensures var listed := Listing(w.rows, |w.rows|, 50);
      var t := Run(w, [PollList] + PollSteps(|listed|), max);
      && |t.rows| == |w.rows|
      && (forall i :: 0 <= i < |w.rows| ==> t.rows[i] == if i in listed then w.rows[i].(status := Sent) else w.rows[i])
      && (forall i :: 0 <= i < |w.rows| && Listable(t.rows[i]) ==>
            |listed| == 50 && forall k :: 0 <= k < 50 ==> listed[k] < i)
  {
    ListingFacts(w.rows, |w.rows|, POLL_LIMIT);
    RunOne(w, PollList, max);
    var next := Next(w, PollList, max);
    PollDrains(next, max);
    RunConcat(w, [PollList], PollSteps(|next.todo|), max);
  }

  /** The steps of a poll that gets to its n-th row. */
  function PollTrace(attempts: seq<Attempt>, stored: seq<bool>, n: nat): seq<Step>
    requires n <= |attempts| && n <= |stored|
  {
    if n == 0 then [PollList]
    else PollTrace(attempts, stored, n - 1) + [PollProcess(attempts[n - 1]), PollRequeue(stored[n - 1])]
  }

  /** The world when a poll gets to its n-th row, and how many of the attempts so far returned no error. */
  ghost function PollState(w: World, attempts: seq<Attempt>, stored: seq<bool>, n: nat, max: int): (World, nat)
    requires n <= |attempts| && n <= |stored|
  {
    if n == 0 then (Next(w, PollList, max), 0)
    else
      var (v, count) := PollState(w, attempts, stored, n - 1, max);
      var settled := v.todo != [] && Process(v, v.todo[0], attempts[n - 1], max).1.Settled?;
      (Next(Next(v, PollProcess(attempts[n - 1]), max), PollRequeue(stored[n - 1]), max),
       count + if settled then 1 else 0)
  }

  lemma PollStateStep(w: World, attempts: seq<Attempt>, stored: seq<bool>, n: nat, max: int, v: World, count: nat)
    requires n < |attempts| && n < |stored| && PollState(w, attempts, stored, n, max) == (v, count) && v.todo != []
    ensures var settled := Process(v, v.todo[0], attempts[n], max).1.Settled?;
      PollState(w, attempts, stored, n + 1, max)
      == (Next(Next(v, PollProcess(attempts[n]), max), PollRequeue(stored[n]), max), count + if settled then 1 else 0)
  {
  }

  lemma {:induction false} PollStateIsRun(w: World, attempts: seq<Attempt>, stored: seq<bool>, n: nat, max: int)
    requires n <= |attempts| && n <= |stored|
    ensures PollState(w, attempts, stored, n, max).0 == Run(w, PollTrace(attempts, stored, n), max)
  {
    if n == 0 {
      RunOne(w, PollList, max);
    } else {
      PollStateIsRun(w, attempts, stored, n - 1, max);
      var before := PollTrace(attempts, stored, n - 1);
      var two := [PollProcess(attempts[n - 1]), PollRequeue(stored[n - 1])];
      RunConcat(w, before, two, max);
      RunTwo(Run(w, before, max), two[0], two[1], max);
    }
  }

  // ---------------------------------------------------------------- at most once

  /** The mail server accepts a row's message at most once, whatever duplicates its job has. */
  lemma {:induction false} AcceptedAtMostOnce(steps: seq<Step>, max: int, id: nat)
    ensures var w := Run(EMPTY, steps, max);
      && Times(w.log, Accepted(id)) <= 1
      && (Times(w.log, Accepted(id)) == 1 <==>
            id < |w.rows| && w.rows[id].channel == Email && w.rows[id].status == Sent)
  {
    EmptyValid(max);
    RunKeeps(EMPTY, steps, max);
    var w := Run(EMPTY, steps, max);
    if id < |w.rows| {
      assert RowOk(w, max, id);
    } else {
      assert Unmentioned(w, id);
    }
  }

  ghost predicate RowPersists(w: World, t: World, id: nat)
    requires id < |w.rows|
  {
    && id < |t.rows|
    && t.rows[id].(status := w.rows[id].status, retries := w.rows[id].retries) == w.rows[id]
    && (w.rows[id].status == Sent ==> t.rows[id] == w.rows[id])
  }

  lemma RowPersistsStep(w: World, step: Step, max: int, id: nat)
    requires id < |w.rows|
    ensures RowPersists(w, Next(w, step, max), id)
  {
  }

  /** A row is never lost, keeps its user, channel and key, and once sent never changes again. */
  lemma {:induction false} RowsPersist(w: World, steps: seq<Step>, max: int, id: nat)
    requires id < |w.rows|
    ensures var t := Run(w, steps, max);
      && id < |t.rows|
      && t.rows[id].(status := w.rows[id].status, retries := w.rows[id].retries) == w.rows[id]
      && (w.rows[id].status == Sent ==> t.rows[id] == w.rows[id])
  {
    if steps != [] {
      RowsPersist(w, steps[..|steps| - 1], max, id);
      RowPersistsStep(Run(w, steps[..|steps| - 1], max), steps[|steps| - 1], max, id);
    }
  }

  /** Row `i` holds the notification of this event on this channel. */
  predicate StandsFor(w: World, i: nat, e: Event, ch: Channel)
  {
    i < |w.rows| && w.rows[i].key == RowKey(BaseKey(e), ch)
  }

  /** Two rows of a reachable world are one row exactly when they stand for one event on one channel. */
  lemma {:induction false} OneRowPerEvent(steps: seq<Step>, max: int, i: nat, e1: Event, ch1: Channel, j: nat,
                                          e2: Event, ch2: Channel)
    requires !ch1.Unlisted? && !ch2.Unlisted?
    ensures var w := Run(EMPTY, steps, max);
      StandsFor(w, i, e1, ch1) && StandsFor(w, j, e2, ch2) ==> (i == j <==> e1 == e2 && ch1 == ch2)
  {
    EmptyValid(max);
    RunKeeps(EMPTY, steps, max);
    RowKeyInjective(e1, ch1, e2, ch2);
  }

  /** A row of this recipient under this key. */
  ghost predicate HasRow(rows: seq<Notification>, user: nat, key: string)
  {
    exists i :: 0 <= i < |rows| && rows[i].user == user && rows[i].key == key
  }

  lemma SnocRow(rows: seq<Notification>, row: Notification, user: nat, key: string)
    ensures Taken(rows + [row], key) <==> Taken(rows, key) || row.key == key
    ensures HasRow(rows + [row], user, key) <==> HasRow(rows, user, key) || (row.user == user && row.key == key)
  {
    var after := rows + [row];
    assert after[|rows|] == row && forall i :: 0 <= i < |rows| ==> after[i] == rows[i];
    if i :| 0 <= i < |rows| && rows[i].key == key { assert after[i].key == key; }
    if i :| 0 <= i < |rows| && rows[i].user == user && rows[i].key == key { assert after[i].key == key; }
  }

  lemma NotifyOnReaches(w: World, user: nat, base: string, ch: Channel, pref: Preferences, push: PushResult,
                        other: nat, channel: Channel)
    requires !channel.Unlisted?
    ensures var t := NotifyOn(w, user, base, ch, pref, push);
      var key := RowKey(base, channel);
      var hit := ch == channel && ChannelAllowed(pref, ch);
      && (Taken(t.rows, key) <==> Taken(w.rows, key) || hit)
      && (HasRow(t.rows, other, key) <==> HasRow(w.rows, other, key) || (other == user && hit && !Taken(w.rows, key)))
  {
    var t := NotifyOn(w, user, base, ch, pref, push);
    if t != w {
      ChannelKeysDiffer(base, ch, channel);
      SnocRow(w.rows, t.rows[|w.rows|], other, RowKey(base, channel));
      assert t.rows == w.rows + [t.rows[|w.rows|]];
    }
  }

  /** A call leaves a channel's key taken exactly if it was, or the channel is asked for and allowed; and it
      gives its recipient a row there exactly if it is, and the key was free. */
  lemma {:induction false} NotifyReachesIff(w: World, user: nat, base: string, chs: seq<Channel>, pref: Preferences,
                                            push: seq<PushResult>, other: nat, ch: Channel)
    requires |push| == |chs| && !ch.Unlisted?
    ensures var t := NotifyAll(w, user, base, chs, pref, push);
      var key := RowKey(base, ch);
      var hit := ch in chs && ChannelAllowed(pref, ch);
      && (Taken(t.rows, key) <==> Taken(w.rows, key) || hit)
      && (HasRow(t.rows, other, key) <==> HasRow(w.rows, other, key) || (other == user && hit && !Taken(w.rows, key)))
  {
    if chs != [] {
      var last := |chs| - 1;
      assert chs == chs[..last] + [chs[last]];
      NotifyReachesIff(w, user, base, chs[..last], pref, push[..last], other, ch);
      var before := NotifyAll(w, user, base, chs[..last], pref, push[..last]);
      NotifyOnReaches(before, user, base, chs[last], pref, push[last], other, ch);
    }
  }

  lemma {:induction false} NotifyTaken(w: World, user: nat, base: string, chs: seq<Channel>, pref: Preferences,
                                       push: seq<PushResult>)
    requires |push| == |chs|
    requires forall ch :: ch in chs && ChannelAllowed(pref, ch) ==> Taken(w.rows, RowKey(base, ch))
    ensures NotifyAll(w, user, base, chs, pref, push) == w
  {
    if chs != [] {
      var last := |chs| - 1;
      NotifyTaken(w, user, base, chs[..last], pref, push[..last]);
      assert chs[last] in chs;
    }
  }

  /** A call changes nothing exactly when every channel asked for and allowed already has a row under its key,
      whoever that row is for. */
  lemma NotifyChangesNothingIff(w: World, user: nat, base: string, chs: seq<Channel>, pref: Preferences,
                                push: seq<PushResult>)
    requires |push| == |chs|
    ensures NotifyAll(w, user, base, chs, pref, push) == w <==>
      forall ch :: ch in chs && ChannelAllowed(pref, ch) ==> Taken(w.rows, RowKey(base, ch))
  {
    if NotifyAll(w, user, base, chs, pref, push) == w {
      forall ch | ch in chs && ChannelAllowed(pref, ch) ensures Taken(w.rows, RowKey(base, ch)) {
        NotifyReachesIff(w, user, base, chs, pref, push, user, ch);
      }
    } else if forall ch :: ch in chs && ChannelAllowed(pref, ch) ==> Taken(w.rows, RowKey(base, ch)) {
      NotifyTaken(w, user, base, chs, pref, push);
    }
  }

  /** One call of the same key for each recipient in turn, on the default channels of each. */
  datatype Recipient = Recipient(user: nat, pref: Preferences, push: seq<PushResult>)

  predicate Answered(to: seq<Recipient>)
  {
    forall r :: r in to ==> |r.push| == |DefaultChannels(r.pref)|
  }

  function AlertEach(w: World, base: string, to: seq<Recipient>): World
    requires Answered(to)
  {
    if to == [] then w
    else
      var n := |to| - 1;
      NotifyAll(AlertEach(w, base, to[..n]), to[n].user, base, DefaultChannels(to[n].pref), to[n].pref, to[n].push)
  }

  predicate On(r: Recipient, ch: Channel)
  {
    ch in DefaultChannels(r.pref)
  }

  /** Recipient k has a channel on, and none before has. */
  predicate FirstOn(to: seq<Recipient>, ch: Channel, k: nat)
    requires k < |to|
  {
    On(to[k], ch) && forall j :: 0 <= j < k ==> !On(to[j], ch)
  }

  predicate SomeoneOn(to: seq<Recipient>, ch: Channel)
  {
    to != [] && (On(to[|to| - 1], ch) || SomeoneOn(to[..|to| - 1], ch))
  }

  /** The first recipient with a channel on is this user. */
  predicate FirstIs(to: seq<Recipient>, ch: Channel, user: nat)
  {
    && to != []
    && var last, before := to[|to| - 1], to[..|to| - 1];
    FirstIs(before, ch, user) || (last.user == user && On(last, ch) && !SomeoneOn(before, ch))
  }

  lemma {:induction false} SomeoneOnIff(to: seq<Recipient>, ch: Channel)
    ensures SomeoneOn(to, ch) <==> exists j :: 0 <= j < |to| && On(to[j], ch)
  {
    if to != [] {
      var n := |to| - 1;
      SomeoneOnIff(to[..n], ch);
      if j :| 0 <= j < |to| && On(to[j], ch) { assert j < n ==> On(to[..n][j], ch); }
    }
  }

  ghost predicate UsersDistinct(to: seq<Recipient>)
  {
    forall i, j :: 0 <= i < j < |to| ==> to[i].user != to[j].user
  }

  lemma {:induction false} FirstIsNot(to: seq<Recipient>, ch: Channel, user: nat)
    requires forall j :: 0 <= j < |to| ==> to[j].user != user
    ensures !FirstIs(to, ch, user)
  {
    if to != [] { FirstIsNot(to[..|to| - 1], ch, user); }
  }

  lemma FirstIsLast(to: seq<Recipient>, ch: Channel)
    requires to != [] && UsersDistinct(to)
    ensures FirstIs(to, ch, to[|to| - 1].user) <==> FirstOn(to, ch, |to| - 1)
  {
    var n := |to| - 1;
    FirstIsNot(to[..n], ch, to[n].user);
    SomeoneOnIff(to[..n], ch);
    assert forall j :: 0 <= j < n ==> to[..n][j] == to[j];
  }

  lemma FirstOnPrefix(to: seq<Recipient>, ch: Channel, k: nat)
    requires k < |to| - 1
    ensures FirstOn(to[..|to| - 1], ch, k) <==> FirstOn(to, ch, k)
  {
    assert forall j :: 0 <= j <= k ==> to[..|to| - 1][j] == to[j];
  }

  lemma {:induction false} FirstIsAt(to: seq<Recipient>, ch: Channel, k: nat)
    requires k < |to| && UsersDistinct(to)
    ensures FirstIs(to, ch, to[k].user) <==> FirstOn(to, ch, k)
  {
    var n := |to| - 1;
    if k < n {
      assert UsersDistinct(to[..n]) && to[..n][k] == to[k] && to[k].user != to[n].user;
      FirstIsAt(to[..n], ch, k);
      FirstOnPrefix(to, ch, k);
    } else {
      FirstIsLast(to, ch);
    }
  }

  lemma {:induction false} AlertEachReaches(w: World, base: string, to: seq<Recipient>, ch: Channel, user: nat)
    requires Answered(to) && !ch.Unlisted? && !Taken(w.rows, RowKey(base, ch))
    ensures Taken(AlertEach(w, base, to).rows, RowKey(base, ch)) <==> SomeoneOn(to, ch)
    ensures HasRow(AlertEach(w, base, to).rows, user, RowKey(base, ch)) <==> FirstIs(to, ch, user)
  {
    if to != [] {
      var n := |to| - 1;
      AlertEachReaches(w, base, to[..n], ch, user);
      AlertOneReaches(AlertEach(w, base, to[..n]), base, to[n], ch, user);
    }
  }

  lemma AlertOneReaches(w: World, base: string, r: Recipient, ch: Channel, user: nat)
    requires |r.push| == |DefaultChannels(r.pref)| && !ch.Unlisted?
    ensures var t := NotifyAll(w, r.user, base, DefaultChannels(r.pref), r.pref, r.push);
      var key := RowKey(base, ch);
      && (Taken(t.rows, key) <==> Taken(w.rows, key) || On(r, ch))
      && (HasRow(t.rows, user, key) <==>
            HasRow(w.rows, user, key) || (r.user == user && On(r, ch) && !Taken(w.rows, key)))
  {
    assert On(r, ch) <==> ch in DefaultChannels(r.pref) && ChannelAllowed(r.pref, ch);
    NotifyReachesIff(w, r.user, base, DefaultChannels(r.pref), r.pref, r.push, user, ch);
  }

  /** Of recipients notified in turn under one base key, one gets a row on a channel exactly if none before has
      that channel on too: the key names no recipient. */
  lemma {:induction false} RecipientReachedIff(w: World, base: string, to: seq<Recipient>, k: nat, ch: Channel)
    requires Answered(to) && UsersDistinct(to) && k < |to|
    requires !ch.Unlisted? && !Taken(w.rows, RowKey(base, ch))
    ensures HasRow(AlertEach(w, base, to).rows, to[k].user, RowKey(base, ch)) <==> FirstOn(to, ch, k)
  {
    AlertEachReaches(w, base, to, ch, to[k].user);
    FirstIsAt(to, ch, k);
  }

  ghost predicate AllReached(rows: seq<Notification>, base: string, to: seq<Recipient>)
  {
    forall k: nat, ch: Channel :: k < |to| && On(to[k], ch) ==> HasRow(rows, to[k].user, RowKey(base, ch))
  }

  /** No two recipients have a channel on in common. */
  predicate NoneShared(to: seq<Recipient>)
  {
    forall j, k :: 0 <= j < k < |to| ==> !Share(to[j].pref, to[k].pref)
  }

  predicate Share(a: Preferences, b: Preferences)
  {
    (a.inApp && b.inApp) || (a.email && b.email)
  }

  lemma OnIff(r: Recipient, ch: Channel)
    ensures On(r, ch) <==> (ch == InApp && r.pref.inApp) || (ch == Email && r.pref.email)
  {
  }

  lemma FirstOnEverywhere(to: seq<Recipient>, k: nat, ch: Channel)
    requires k < |to| && NoneShared(to) && On(to[k], ch)
    ensures FirstOn(to, ch, k)
  {
    OnIff(to[k], ch);
    forall j | 0 <= j < k ensures !On(to[j], ch) {
      OnIff(to[j], ch);
    }
  }

  /** So a low-stock alert reaches all administrators on all their channels exactly if no two have one in common. */
  lemma {:induction false} AllAdminsAlertedIff(w: World, product: Uuid, cycle: int, admins: seq<Recipient>)
    requires Answered(admins) && UsersDistinct(admins)
    requires forall ch: Channel :: !ch.Unlisted? ==> !Taken(w.rows, RowKey(BaseKey(LowStock(product, cycle)), ch))
    ensures var base := BaseKey(LowStock(product, cycle));
      AllReached(AlertEach(w, base, admins).rows, base, admins) <==> NoneShared(admins)
  {
    var base := BaseKey(LowStock(product, cycle));
    var rows := AlertEach(w, base, admins).rows;
    if NoneShared(admins) {
      forall k: nat, ch: Channel | k < |admins| && On(admins[k], ch)
        ensures HasRow(rows, admins[k].user, RowKey(base, ch))
      {
        FirstOnEverywhere(admins, k, ch);
        RecipientReachedIff(w, base, admins, k, ch);
      }
    } else {
      var j, k :| 0 <= j < k < |admins| && Share(admins[j].pref, admins[k].pref);
      var ch := if admins[j].pref.inApp && admins[k].pref.inApp then InApp else Email;
      OnIff(admins[j], ch);
      OnIff(admins[k], ch);
      RecipientReachedIff(w, base, admins, k, ch);
      assert !FirstOn(admins, ch, k);
    }
  }

  /** The steps a Notify call consists of. */
  function NotifySteps(user: nat, base: string, chs: seq<Channel>, pref: Preferences, push: seq<PushResult>): seq<Step>
    requires |push| == |chs|
  {
    seq(|chs|, i requires 0 <= i < |chs| => Notify(user, base, chs[i], pref, push[i]))
  }

  /** When nothing comes between its iterations a call is the run of its steps. */
  lemma {:induction false} NotifyIsARun(w: World, user: nat, base: string, chs: seq<Channel>, pref: Preferences,
                                        push: seq<PushResult>, max: int)
    requires |push| == |chs|
    ensures NotifyAll(w, user, base, chs, pref, push) == Run(w, NotifySteps(user, base, chs, pref, push), max)
  {
    if chs != [] {
      var last := |chs| - 1;
      NotifyIsARun(w, user, base, chs[..last], pref, push[..last], max);
      var steps := NotifySteps(user, base, chs, pref, push);
      assert steps[..last] == NotifySteps(user, base, chs[..last], pref, push[..last]);
    }
  }

  // ---------------------------------------------------------------- the services

  /** The table, the list and the two loops' local state. The log is what the outside world saw. */
  class NotificationSystem {
    const maxRetries: int
    var rows: seq<Notification>
    var jobs: seq<nat>
    var hand: Hand
    var todo: seq<nat>
    var owed: Option<nat>
    ghost var log: seq<Entry>

    ghost function View(): World
      reads this
    {
      World(rows, jobs, hand, todo, owed, log)
    }

    constructor (maxRetries: int)
      ensures View() == EMPTY && this.maxRetries == maxRetries
    {
      this.maxRetries := maxRetries;
      rows, jobs, hand, todo, owed, log := [], [], Free, [], None, [];
    }

    /** User 0 is the nil id; the preferences are None when they cannot be read; `faults` are the table's errors.
        The call ends before channel `done`, which is past the last one unless an error ended it early. */
    method Notify(user: nat, key: string, channels: seq<Channel>, pref: Option<Preferences>, push: seq<PushResult>,
                  faults: seq<Fault>)
      returns (ok: bool, ghost done: nat)
      requires pref.Some? ==> |push| == |faults| == |Chosen(channels, pref.value)|
      modifies `rows, `jobs
      ensures ok <==> user != 0 && key != "" && pref.Some? && done == |Chosen(channels, pref.value)|
      ensures user == 0 || key == "" || pref.None? ==> View() == old(View())
      ensures user != 0 && key != "" && pref.Some? ==>
        var chosen := Chosen(channels, pref.value);
        && done <= |chosen|
        && View() == NotifyAll(old(View()), user, key, chosen[..done], pref.value, push[..done])
        && (forall i :: 0 <= i < done ==> !StopsAt(old(View()), user, key, chosen, pref.value, push, faults, i))
        && (done < |chosen| ==> StopsAt(old(View()), user, key, chosen, pref.value, push, faults, done))
    {
      done := 0;
      if user == 0 || key == "" || pref.None? {
        return false, done;
      }
      var chosen := Chosen(channels, pref.value);
      for i := 0 to |chosen|
        invariant done == i
        invariant View() == NotifyAll(old(View()), user, key, chosen[..i], pref.value, push[..i])
        invariant forall j :: 0 <= j < i ==> !StopsAt(old(View()), user, key, chosen, pref.value, push, faults, j)
      {
        var ch := chosen[i];
        assert chosen[..i + 1][..i] == chosen[..i] && push[..i + 1][..i] == push[..i];
        done := i + 1;
        if !ChannelAllowed(pref.value, ch) {
          continue;
        }
        var rowKey := RowKey(key, ch);
        if faults[i] == LookupFails {
          return false, i;
        }
        if Taken(rows, rowKey) {
          continue;
        }
        if faults[i] == CreateFails {
          return false, i;
        }
        var id := |rows|;
        if ch == InApp {
          rows := rows + [Notification(user, ch, rowKey, Sent, 0)];
        } else {
          var row := Notification(user, ch, rowKey, Queued, 0);
          rows := rows + [row];
          match push[i] {
            case Pushed => jobs := [id] + jobs;
            case NoClient => rows := rows[id := row.(status := Pending)];
            case PushFailed =>
          }
        }
      }
      assert chosen[..|chosen|] == chosen && push[..|push|] == push;
      ok := true;
    }

    method ProcessDelivery(id: nat, attempt: Attempt) returns (verdict: Verdict)
      modifies `rows, `log
      ensures (View(), verdict) == Process(old(View()), id, attempt, maxRetries)
    {
      if id >= |rows| || attempt.RowUnreadable? {
        return Missed;
      }
      var row := rows[id];
      if row.status == Sent {
        return Settled;
      }
      match row.channel {
        case Email =>
          if attempt.UserUnreadable? {
            return Missed;
          }
          if attempt.SendRefused? {
            log := log + [Refused(id)];
            verdict := MarkFailed(id);
            return;
          }
          log := log + [Accepted(id)];
        case Sms =>
        case Push =>
        case _ =>
          return Settled;
      }
      rows := rows[id := row.(status := Sent)];
      verdict := Settled;
    }

    method MarkFailed(id: nat) returns (verdict: Verdict)
      requires id < |rows|
      modifies `rows
      ensures rows == old(rows)[id := AfterRefusal(old(rows)[id], maxRetries)]
      ensures verdict == if rows[id].status == Failed then Settled else Bounced
    {
      var row := rows[id];
      row := row.(retries := row.retries + 1);
      if row.retries >= maxRetries {
        rows := rows[id := row.(status := Failed)];
        return Settled;
      }
      rows := rows[id := row.(status := Pending)];
      verdict := Bounced;
    }

    method ListPendingExternal(limit: nat) returns (ids: seq<nat>)
      ensures ids == Listing(rows, |rows|, limit)
    {
      ids := [];
      for i := 0 to |rows|
        invariant ids == Listing(rows, i, limit)
      {
        if |ids| < limit && Listable(rows[i]) {
          ids := ids + [i];
        }
      }
    }

    /** One turn of the worker's loop: pop a job, attempt it, put it back on an error. */
    method WorkerTurn(attempt: Attempt, stored: bool)
      requires hand.Free?
      modifies `rows, `jobs, `hand, `log
      ensures hand.Free?
      ensures View() == Run(old(View()), [Dequeue, WorkerProcess(attempt), WorkerRequeue(stored)], maxRetries)
    {
      RunThree(View(), Dequeue, WorkerProcess(attempt), WorkerRequeue(stored), maxRetries);
      if |jobs| == 0 {
        return;
      }
      var id := jobs[|jobs| - 1];
      jobs := jobs[..|jobs| - 1];
      hand := Holding(id);
      var verdict := ProcessDelivery(id, attempt);
      if verdict.Settled? {
        hand := Free;
      } else {
        hand := Returning(id);
        if stored {
          jobs := [id] + jobs;
        }
        hand := Free;
      }
    }

    /** One row of a poll: attempt it, and put its job back on an error. */
    method PollNext(attempt: Attempt, stored: bool) returns (verdict: Verdict)
      requires todo != [] && owed.None?
      modifies `rows, `jobs, `todo, `log
      ensures View() == Next(Next(old(View()), PollProcess(attempt), maxRetries), PollRequeue(stored), maxRetries)
      ensures todo == old(todo)[1..]
      ensures verdict == Process(old(View()), old(todo)[0], attempt, maxRetries).1
    {
      var id := todo[0];
      verdict := ProcessDelivery(id, attempt);
      todo := todo[1..];
      if verdict.Missed? {
        log := log + [PollMissed(id)];
      }
      if !verdict.Settled? && stored {
        jobs := [id] + jobs;
      }
    }

    /** One poll: a list step, then an attempt and a requeue for each listed row. The count is of the attempts
        that returned no error. */
    method PollAndProcessPending(attempts: seq<Attempt>, stored: seq<bool>) returns (processed: nat)
      requires todo == [] && owed.None?
      requires |attempts| >= 50 && |stored| >= 50
      modifies `rows, `jobs, `todo, `log
      ensures var n := |Listing(old(rows), |old(rows)|, 50)|;
        && n <= 50 && todo == []
        && View() == Run(old(View()), PollTrace(attempts, stored, n), maxRetries)
        && processed == PollState(old(View()), attempts, stored, n, maxRetries).1
    {
      ListingFacts(rows, |rows|, POLL_LIMIT);
      todo := ListPendingExternal(POLL_LIMIT);
      ghost var n := |todo|;
      processed := 0;
      var i := 0;
      while todo != []
        invariant owed.None? && i + |todo| == n
        invariant (View(), processed) == PollState(old(View()), attempts, stored, i, maxRetries)
        decreases |todo|
      {
        PollStateStep(old(View()), attempts, stored, i, maxRetries, View(), processed);
        var verdict := PollNext(attempts[i], stored[i]);
        if verdict.Settled? {
          processed := processed + 1;
        }
        i := i + 1;
      }
      PollStateIsRun(old(View()), attempts, stored, n, maxRetries);
    }
  }
}
