/**
 internal/application/notification/service.go: idempotent acceptance.

 The system lets any number of Submit calls interleave one database operation at a time, with failing lookups
 and with inserts whose outcome is lost after the commit, and shows that they behave like one atomic
 insert-if-absent. `Service` is the code: a lookup, an insert, and a second lookup when the insert lost a race;
 every execution of it is proved to be a run of the system.
 */
module Submit {
  import opened Wrappers
  import opened Domain
  import opened EventStore
  import opened Compensator
  import opened Canonical

  datatype Command = Command(sourceSystem: string, sourceRequestId: string, providerCode: string,
                             providerAction: string, payload: string)

  datatype Reply =
    | Accepted(id: EventId, duplicate: bool)
    | ErrSourceRequestConflict
    | ErrStorageUnavailable
    | ErrRejected  // the request, the provider action or the payload did not validate

  predicate ForRequest(row: Identity, cmd: Command) {
    HasSource(row, cmd.sourceSystem, cmd.sourceRequestId)
  }

  /** The event Submit builds for a command. */
  function IdentityOf(id: EventId, cmd: Command): Identity {
    Identity(id, cmd.sourceSystem, cmd.sourceRequestId, cmd.providerCode, cmd.providerAction, cmd.payload)
  }

  // ---- any number of calls at once ----

  /** The decoder, and what a payload reads back as after PostgreSQL stored it as JSONB. */
  datatype Codec = Codec(parse: string -> Option<Json>, stored: string -> string)

  datatype Call = Looking | Inserting | LookingAgain | Replied(reply: Reply)

  datatype Client = Client(cmd: Command, call: Call)

  datatype System = System(
    rows: map<EventId, Identity>,
    clients: map<nat, Client>,
    owner: map<EventId, nat>)  // history: whose insert created the row

  datatype Step =
    | Begin(c: nat, cmd: Command, valid: bool)
    | Find(c: nat, databaseUp: bool)
    | InsertRow(c: nat, id: EventId, committed: bool, answered: bool)

  predicate SameContent(codec: Codec, row: Identity, cmd: Command) {
    && row.providerCode == cmd.providerCode && row.providerAction == cmd.providerAction
    && CanonicalEqual(codec.parse, row.payload, cmd.payload)
  }

  predicate RowFor(rows: map<EventId, Identity>, cmd: Command, id: EventId) {
    id in rows && ForRequest(rows[id], cmd)
  }

  /** The reply for an existing row. */
  function Existing(codec: Codec, rows: map<EventId, Identity>, cmd: Command, id: EventId): Reply
    requires id in rows
  {
    if SameContent(codec, rows[id], cmd) then Accepted(id, true) else ErrSourceRequestConflict
  }

  function NewRow(codec: Codec, cmd: Command, id: EventId): Identity {
    IdentityOf(id, cmd).(payload := codec.stored(cmd.payload))
  }

  /** The specification: one atomic insert-if-absent. */
  ghost function InsertIfAbsent(codec: Codec, rows: map<EventId, Identity>, cmd: Command, id: EventId)
    : (map<EventId, Identity>, Reply)
  {
    if k :| RowFor(rows, cmd, k) then (rows, Existing(codec, rows, cmd, k))
    else (rows[id := NewRow(codec, cmd, id)], Accepted(id, false))
  }

  ghost predicate Enabled(s: System, step: Step) {
    match step
    case Begin(c, _, _) => c !in s.clients
    case Find(c, _) => c in s.clients && (s.clients[c].call.Looking? || s.clients[c].call.LookingAgain?)
    case InsertRow(c, id, committed, answered) =>
      && c in s.clients && s.clients[c].call.Inserting? && id !in s.rows
      && (answered ==> committed)
  }

  /** What the lookup of client c leads to. */
  ghost function AfterFind(codec: Codec, s: System, c: nat, databaseUp: bool): Call
    requires c in s.clients
  {
    var w := s.clients[c];
    if !databaseUp then Replied(ErrStorageUnavailable)
    else if k :| RowFor(s.rows, w.cmd, k) then Replied(Existing(codec, s.rows, w.cmd, k))
    else if w.call.Looking? then Inserting
    else Replied(ErrStorageUnavailable)
  }

  ghost function Apply(codec: Codec, s: System, step: Step): System
    requires Enabled(s, step)
  {
    match step
    case Begin(c, cmd, valid) =>
      s.(clients := s.clients[c := Client(cmd, if valid then Looking else Replied(ErrRejected))])
    case Find(c, databaseUp) =>
      s.(clients := s.clients[c := s.clients[c].(call := AfterFind(codec, s, c, databaseUp))])
    case InsertRow(c, id, committed, answered) =>
      var w := s.clients[c];
      if !committed then s.(clients := s.clients[c := w.(call := Replied(ErrStorageUnavailable))])
      else if exists k :: RowFor(s.rows, w.cmd, k) then
        // the unique violation, if the answer arrives
        s.(clients := s.clients[c := w.(call := if answered then LookingAgain else Replied(ErrStorageUnavailable))])
      else
        System(s.rows[id := NewRow(codec, w.cmd, id)],
               s.clients[c := w.(call := Replied(if answered then Accepted(id, false) else ErrStorageUnavailable))],
               s.owner[id := c])
  }

  predicate Init(s: System) {
    s == System(map[], map[], map[])
  }

  ghost predicate Legal(codec: Codec, s: System, run: seq<Step>)
    decreases |run|
  {
    run == [] || (Enabled(s, run[0]) && Legal(codec, Apply(codec, s, run[0]), run[1..]))
  }

  ghost function After(codec: Codec, s: System, run: seq<Step>): System
    requires Legal(codec, s, run)
    decreases |run|
  {
    if run == [] then s else After(codec, Apply(codec, s, run[0]), run[1..])
  }

  // ---- invariant ----

  /** UNIQUE (source_system, source_request_id) */
  ghost predicate OneRowPerRequest(rows: map<EventId, Identity>) {
    forall i, j :: i in rows && j in rows && SameSource(rows[i], rows[j]) ==> i == j
  }

  ghost predicate ClientOk(codec: Codec, s: System, c: nat)
    requires c in s.clients
  {
    var w := s.clients[c];
    && (w.call.LookingAgain? ==> exists k :: RowFor(s.rows, w.cmd, k))
    && (w.call.Replied? && w.call.reply.Accepted? ==>
          var id := w.call.reply.id;
          && RowFor(s.rows, w.cmd, id)
          && (if w.call.reply.duplicate then SameContent(codec, s.rows[id], w.cmd)
              else s.rows[id] == NewRow(codec, w.cmd, id) && id in s.owner && s.owner[id] == c))
    && (w.call.Replied? && w.call.reply.ErrSourceRequestConflict? ==>
          exists k :: RowFor(s.rows, w.cmd, k) && !SameContent(codec, s.rows[k], w.cmd))
  }

  ghost predicate Inv(codec: Codec, s: System) {
    && OneRowPerRequest(s.rows)
    && (forall id :: id in s.owner ==> id in s.rows)
    && (forall c :: c in s.clients ==> ClientOk(codec, s, c))
  }

  /** Rows are only ever added, each under a new id and for a request that had none. */
  lemma RowsGrow(codec: Codec, s: System, step: Step)
    requires OneRowPerRequest(s.rows) && Enabled(s, step)
    ensures var s' := Apply(codec, s, step);
            && OneRowPerRequest(s'.rows)
            && (forall id :: id in s.rows ==> id in s'.rows && s'.rows[id] == s.rows[id])
            && (forall id :: id in s'.owner && id !in s.owner ==> id in s'.rows && id !in s.rows)
            && (forall id :: id in s.owner && id in s.rows ==> id in s'.owner && s'.owner[id] == s.owner[id])
  {
    var s' := Apply(codec, s, step);
    forall i, j | i in s'.rows && j in s'.rows && SameSource(s'.rows[i], s'.rows[j]) ensures i == j {
      if step.InsertRow? && s'.rows != s.rows {
        assert forall k :: !RowFor(s.rows, s.clients[step.c].cmd, k);
        assert i in s.rows ==> !RowFor(s.rows, s.clients[step.c].cmd, i);
        assert j in s.rows ==> !RowFor(s.rows, s.clients[step.c].cmd, j);
      }
    }
  }

  lemma WaitingClientStaysOk(codec: Codec, s: System, step: Step, c: nat)
    requires Inv(codec, s) && Enabled(s, step) && c in s.clients && step.c != c
    ensures ClientOk(codec, Apply(codec, s, step), c)
  {
    var s' := Apply(codec, s, step);
    RowsGrow(codec, s, step);
    assert ClientOk(codec, s, c) && s'.clients[c] == s.clients[c];
    var w := s.clients[c];
    if w.call.LookingAgain? {
      var k :| RowFor(s.rows, w.cmd, k);
      assert RowFor(s'.rows, w.cmd, k);
    } else if w.call.Replied? && w.call.reply.ErrSourceRequestConflict? {
      var k :| RowFor(s.rows, w.cmd, k) && !SameContent(codec, s.rows[k], w.cmd);
      assert RowFor(s'.rows, w.cmd, k) && !SameContent(codec, s'.rows[k], w.cmd);
    }
  }

  lemma ActingClientIsOk(codec: Codec, s: System, step: Step)
    requires Inv(codec, s) && Enabled(s, step)
    ensures step.c in Apply(codec, s, step).clients && ClientOk(codec, Apply(codec, s, step), step.c)
  {
    var s' := Apply(codec, s, step);
    if step.Find? && step.databaseUp && exists k :: RowFor(s.rows, s.clients[step.c].cmd, k) {
      var cmd := s.clients[step.c].cmd;
      var k :| RowFor(s.rows, cmd, k) && s'.clients[step.c].call == Replied(Existing(codec, s.rows, cmd, k));
      assert RowFor(s'.rows, s'.clients[step.c].cmd, k);
    } else if step.InsertRow? && s'.clients[step.c].call.LookingAgain? {
      var k :| RowFor(s.rows, s.clients[step.c].cmd, k);
      assert RowFor(s'.rows, s'.clients[step.c].cmd, k);
    }
  }

  lemma StepHolds(codec: Codec, s: System, step: Step)
    requires Inv(codec, s) && Enabled(s, step)
    ensures Inv(codec, Apply(codec, s, step))
  {
    var s' := Apply(codec, s, step);
    RowsGrow(codec, s, step);
    forall c | c in s'.clients ensures ClientOk(codec, s', c) {
      if step.c == c {
        ActingClientIsOk(codec, s, step);
      } else {
        assert c in s.clients;
        WaitingClientStaysOk(codec, s, step, c);
      }
    }
  }

  lemma {:induction false} RunHolds(codec: Codec, s: System, run: seq<Step>)
    requires Inv(codec, s) && Legal(codec, s, run)
    ensures Inv(codec, After(codec, s, run))
    decreases |run|
  {
    if run != [] {
      StepHolds(codec, s, run[0]);
      RunHolds(codec, Apply(codec, s, run[0]), run[1..]);
    }
  }

  ghost predicate ReachableSystem(codec: Codec, s: System) {
    exists start, run :: Init(start) && Legal(codec, start, run) && After(codec, start, run) == s
  }

  lemma ReachableHolds(codec: Codec, s: System)
    requires ReachableSystem(codec, s)
    ensures Inv(codec, s)
  {
    var start, run :| Init(start) && Legal(codec, start, run) && After(codec, start, run) == s;
    RunHolds(codec, start, run);
  }

  // ---- what submitters see ----

  /** Storing keeps the canonical form of every payload. JSONB does not for number literals such as 1e2. */
  ghost predicate KeepsCanonicalForm(codec: Codec) {
    forall p :: CanonicalEqual(codec.parse, codec.stored(p), p)
  }

  /** Two accepted submissions of one request carry the id of the same row, at most one of them as new, and agree
      on provider, action and canonical payload. */
  lemma AcceptedSubmissionsAgree(codec: Codec, s: System, c: nat, d: nat)
    requires ReachableSystem(codec, s) && KeepsCanonicalForm(codec)
    requires c in s.clients && s.clients[c].call.Replied? && s.clients[c].call.reply.Accepted?
    requires d in s.clients && s.clients[d].call.Replied? && s.clients[d].call.reply.Accepted?
    requires s.clients[c].cmd.sourceSystem == s.clients[d].cmd.sourceSystem
    requires s.clients[c].cmd.sourceRequestId == s.clients[d].cmd.sourceRequestId
    ensures var a, b := s.clients[c], s.clients[d];
            && a.call.reply.id == b.call.reply.id && a.call.reply.id in s.rows
            && (c != d ==> a.call.reply.duplicate || b.call.reply.duplicate)
            && a.cmd.providerCode == b.cmd.providerCode && a.cmd.providerAction == b.cmd.providerAction
            && CanonicalEqual(codec.parse, a.cmd.payload, b.cmd.payload)
  {
    ReachableHolds(codec, s);
    AcceptedMatchesRow(codec, s, c);
    AcceptedMatchesRow(codec, s, d);
    var a, b := s.clients[c], s.clients[d];
    assert SameSource(s.rows[a.call.reply.id], s.rows[b.call.reply.id]);
    var p := s.rows[a.call.reply.id].payload;
    CanonicalEqualIsEquivalence(codec.parse, p, a.cmd.payload, b.cmd.payload);
    CanonicalEqualIsEquivalence(codec.parse, a.cmd.payload, p, b.cmd.payload);
  }

  lemma AcceptedMatchesRow(codec: Codec, s: System, c: nat)
    requires Inv(codec, s) && KeepsCanonicalForm(codec)
    requires c in s.clients && s.clients[c].call.Replied? && s.clients[c].call.reply.Accepted?
    ensures RowFor(s.rows, s.clients[c].cmd, s.clients[c].call.reply.id)
    ensures SameContent(codec, s.rows[s.clients[c].call.reply.id], s.clients[c].cmd)
  {
    assert ClientOk(codec, s, c);
  }

  /** A conflict is only ever reported against a stored row of the same request with different content, and there
      is one row per request. */
  lemma ConflictIsReal(codec: Codec, s: System, c: nat)
    requires ReachableSystem(codec, s)
    requires c in s.clients && s.clients[c].call == Replied(ErrSourceRequestConflict)
    ensures OneRowPerRequest(s.rows)
    ensures exists k :: RowFor(s.rows, s.clients[c].cmd, k) && !SameContent(codec, s.rows[k], s.clients[c].cmd)
  {
    ReachableHolds(codec, s);
    assert ClientOk(codec, s, c);
  }

  /** Refinement: at the step where a call gets an accepting or conflicting reply, table and reply are those of
      one atomic insert-if-absent; a step that changes the table is such an insert; the second lookup never misses. */
  lemma EachReplyIsAtomic(codec: Codec, s: System, step: Step, c: nat)
    requires ReachableSystem(codec, s) && Enabled(s, step) && c in s.clients && !s.clients[c].call.Replied?
    ensures var s', w := Apply(codec, s, step), s.clients[c];
            c in s'.clients && s'.clients[c].call.Replied? && s'.clients[c].call.reply != ErrStorageUnavailable ==>
              exists id :: (s'.rows, s'.clients[c].call.reply) == InsertIfAbsent(codec, s.rows, w.cmd, id)
    ensures step.InsertRow? && Apply(codec, s, step).rows != s.rows ==>
              Apply(codec, s, step).rows == InsertIfAbsent(codec, s.rows, s.clients[step.c].cmd, step.id).0
    ensures !step.InsertRow? ==> Apply(codec, s, step).rows == s.rows
    ensures step == Find(c, true) && s.clients[c].call.LookingAgain? ==>
              Apply(codec, s, step).clients[c].call != Replied(ErrStorageUnavailable)
  {
    ReachableHolds(codec, s);
    assert ClientOk(codec, s, c);
    var s', w := Apply(codec, s, step), s.clients[c];
    if step.Find? && step.c == c && s'.clients[c].call.Replied? && s'.clients[c].call.reply != ErrStorageUnavailable {
      var k :| RowFor(s.rows, w.cmd, k);
      assert (s'.rows, s'.clients[c].call.reply) == InsertIfAbsent(codec, s.rows, w.cmd, k) by {
        forall j | RowFor(s.rows, w.cmd, j) ensures j == k {
          assert SameSource(s.rows[j], s.rows[k]);
        }
      }
    }
    if step.InsertRow? && step.c == c && s'.clients[c].call.Replied? && s'.clients[c].call.reply != ErrStorageUnavailable {
      assert (s'.rows, s'.clients[c].call.reply) == InsertIfAbsent(codec, s.rows, w.cmd, step.id);
    }
  }

  /** Repeating an accepted command is answered as its duplicate if and only if storing kept the canonical form of
      its payload; otherwise the same command is answered with a conflict. */
  lemma RepeatIsDuplicateIff(codec: Codec, s: System, c: nat, d: nat)
    requires ReachableSystem(codec, s)
    requires c in s.clients && s.clients[c].call.Replied? && s.clients[c].call.reply.Accepted?
    requires !s.clients[c].call.reply.duplicate
    requires d in s.clients && s.clients[d].call.Looking? && s.clients[d].cmd == s.clients[c].cmd
    ensures var id, p := s.clients[c].call.reply.id, s.clients[c].cmd.payload;
            AfterFind(codec, s, d, true) ==
            Replied(if CanonicalEqual(codec.parse, codec.stored(p), p) then Accepted(id, true) else ErrSourceRequestConflict)
  {
    ReachableHolds(codec, s);
    assert ClientOk(codec, s, c);
    var id := s.clients[c].call.reply.id;
    assert RowFor(s.rows, s.clients[d].cmd, id);
    forall k | RowFor(s.rows, s.clients[d].cmd, k) ensures k == id {
      assert SameSource(s.rows[k], s.rows[id]);
    }
  }

  // ---- the code ----

  /** The columns the system follows. */
  function Identities(rows: Table): map<EventId, Identity> {
    map i | i in rows :: rows[i].identity
  }

  lemma OneStep(codec: Codec, s: System, step: Step)
    requires Enabled(s, step)
    ensures Legal(codec, s, [step]) && After(codec, s, [step]) == Apply(codec, s, step)
  {
    var rest := [step][1..];
    assert rest == [];
    assert Legal(codec, Apply(codec, s, step), rest);
  }

  lemma AppendStep(codec: Codec, s: System, run: seq<Step>, step: Step)
    requires Legal(codec, s, run) && Enabled(After(codec, s, run), step)
    ensures Legal(codec, s, run + [step])
    ensures After(codec, s, run + [step]) == Apply(codec, After(codec, s, run), step)
  {
    OneStep(codec, After(codec, s, run), step);
    RunsCompose(codec, s, run, [step]);
  }

  lemma {:induction false} RunsCompose(codec: Codec, s: System, a: seq<Step>, b: seq<Step>)
    requires Legal(codec, s, a) && Legal(codec, After(codec, s, a), b)
    ensures Legal(codec, s, a + b) && After(codec, s, a + b) == After(codec, After(codec, s, a), b)
    decreases |a|
  {
    if a == [] {
      assert a + b == b;
    } else {
      assert (a + b)[0] == a[0] && (a + b)[1..] == a[1..] + b;
      RunsCompose(codec, Apply(codec, s, a[0]), a[1..], b);
    }
  }

  /** The INSERT of a fresh id, on the table and in the system. */
  lemma InsertIsAStep(codec: Codec, s: System, c: nat, cmd: Command, rows: Table, id: EventId, now: Time, answered: bool)
    requires s.rows == Identities(rows) && c in s.clients && s.clients[c] == Client(cmd, Inserting) && id !in rows
    ensures var row := NewRow(codec, cmd, id);
            var taken := exists k :: k in rows && SameSource(rows[k].identity, row);
            var e := Apply(codec, s, InsertRow(c, id, true, answered));
            && e.rows == Identities(if taken then rows else rows[id := Inserted(row, now)])
            && e.clients == s.clients[c := Client(cmd, if !answered then Replied(ErrStorageUnavailable)
                                                       else if taken then LookingAgain
                                                       else Replied(Accepted(id, false)))]
  {
    var row := NewRow(codec, cmd, id);
    assert forall k :: k in rows ==> (RowFor(s.rows, cmd, k) <==> SameSource(rows[k].identity, row));
    assert forall k :: RowFor(s.rows, cmd, k) ==> k in rows;
  }

  lemma MarkKeepsIdentities(rows: Table, id: EventId, now: Time)
    requires id in rows
    ensures Identities(Written(rows, id, ExecuteMarkEnqueued(rows[id], now))) == Identities(rows)
  {
  }

  class Service {
    const repo: EventRepo
    const broker: Outbox
    const codec: Codec

    constructor (repo: EventRepo, broker: Outbox, codec: Codec)
      ensures this.repo == repo && this.broker == broker && this.codec == codec
    {
      this.repo, this.broker, this.codec := repo, broker, codec;
    }

    /** The system is in a state with this table, in which call c is for cmd and has got this far. */
    ghost predicate Mirrors(s: System, c: nat, cmd: Command, call: Call)
      reads repo
    {
      s.rows == Identities(repo.rows) && c in s.clients && s.clients[c] == Client(cmd, call)
    }

    /** The reply due for a stored row with the key of the request: its id as a duplicate, or a conflict. */
    predicate Answers(row: Identity, cmd: Command, reply: Reply) {
      && row.sourceSystem == cmd.sourceSystem && row.sourceRequestId == cmd.sourceRequestId
      && reply == if && row.providerCode == cmd.providerCode && row.providerAction == cmd.providerAction
                     && CanonicalEqual(codec.parse, row.payload, cmd.payload)
                  then Accepted(row.id, true) else ErrSourceRequestConflict
    }

    /** What a call no operation of which fails does: with no row of the same source system and request id it stores
        the command under its own id and says so; otherwise it leaves the table alone and answers for such a row. */
    ghost predicate AnsweredLike(cmd: Command, id: EventId, was: Table, reply: Reply)
      reads repo
    {
      if exists k :: k in was && was[k].identity.sourceSystem == cmd.sourceSystem
                     && was[k].identity.sourceRequestId == cmd.sourceRequestId
      then
        && repo.rows == was
        && exists k :: k in was && Answers(was[k].identity, cmd, reply)
      else
        && reply == Accepted(id, false) && id in repo.rows && repo.rows[id].status == PENDING
        && repo.rows[id].identity == Identity(id, cmd.sourceSystem, cmd.sourceRequestId, cmd.providerCode,
                                              cmd.providerAction, codec.stored(cmd.payload))
    }

    /** None: no row for this request. Otherwise the reply for the row that exists. In the system it is one Find. */
    method ResolveExisting(cmd: Command, databaseUp: bool, ghost s: System, ghost c: nat, ghost call: Call)
      returns (reply: Option<Reply>)
      requires repo.Valid() && Mirrors(s, c, cmd, call)
      ensures AfterFind(codec, s, c, databaseUp) ==
              match reply
              case Some(r) => Replied(r)
              case None => if call.Looking? then Inserting else Replied(ErrStorageUnavailable)
      ensures reply == None <==> databaseUp && forall k :: k in repo.rows ==> !ForRequest(repo.rows[k].identity, cmd)
      ensures !databaseUp <==> reply == Some(ErrStorageUnavailable)
      ensures databaseUp && reply.Some? ==> exists k :: k in repo.rows && Answers(repo.rows[k].identity, cmd, reply.value)
    {
      if !databaseUp {
        return Some(ErrStorageUnavailable);
      }
      var existing := repo.FindBySourceRequest(cmd.sourceSystem, cmd.sourceRequestId);
      if existing == None {
        assert forall k :: k in s.rows ==> !RowFor(s.rows, cmd, k);
        return None;
      }
      var row := existing.value.identity;
      assert RowFor(s.rows, cmd, row.id);
      assert forall k :: RowFor(s.rows, cmd, k) ==> SameSource(s.rows[k], row);
      if row.providerCode != cmd.providerCode || row.providerAction != cmd.providerAction
         || !CanonicalEqual(codec.parse, row.payload, cmd.payload)
      {
        return Some(ErrSourceRequestConflict);
      }
      return Some(Accepted(row.id, true));
    }

    /** The second lookup, after the insert lost a race. */
    method AnswerDuplicate(cmd: Command, databaseUp: bool, ghost s: System, ghost c: nat, ghost call: Call)
      returns (reply: Reply, ghost find: Step)
      requires repo.Valid() && Mirrors(s, c, cmd, call) && !call.Looking?
      ensures find == Find(c, databaseUp) && AfterFind(codec, s, c, databaseUp) == Replied(reply)
      ensures reply.Accepted? ==> reply.duplicate
      ensures reply != ErrRejected
      ensures databaseUp && reply != ErrStorageUnavailable ==>
                exists k :: k in repo.rows && Answers(repo.rows[k].identity, cmd, reply)
      ensures reply == ErrStorageUnavailable ==>
                !databaseUp || forall k :: k in repo.rows ==> !ForRequest(repo.rows[k].identity, cmd)
    {
      find := Find(c, databaseUp);
      var resolved := ResolveExisting(cmd, databaseUp, s, c, call);
      reply := if resolved.Some? then resolved.value else ErrStorageUnavailable;
    }

    /** Everything after a first lookup that found nothing; the table is whatever it has become since. A call under
        a fresh id is a run of the system, from whatever state the system is in. Under an id already taken nothing
        changes, and the reply is an error unless a row of the request exists after all. */
    method InsertOrResolve(cmd: Command, id: EventId, now: Time, insert: Fate, lookupUp: bool, receipt: Receipt,
                           mark: Fate, ghost s: System, ghost c: nat)
      returns (reply: Reply, ghost run: seq<Step>)
      requires repo.Valid() && Mirrors(s, c, cmd, Inserting)
      modifies repo, broker
      ensures repo.Valid()
      ensures forall i :: 0 <= i < |run| ==> run[i].c == c
      ensures id !in old(repo.rows) ==>
                && Legal(codec, s, run) && After(codec, s, run).rows == Identities(repo.rows)
                && c in After(codec, s, run).clients && After(codec, s, run).clients[c].call == Replied(reply)
      ensures id in old(repo.rows) ==> repo.rows == old(repo.rows) && !(reply.Accepted? && !reply.duplicate)
      ensures forall i :: i in old(repo.rows) ==> i in repo.rows && repo.rows[i] == old(repo.rows)[i]
      ensures reply.Accepted? && !reply.duplicate ==>
                reply.id == id && id in repo.rows && repo.rows[id].status == PENDING
      ensures broker.published == old(broker.published) + (if reply == Accepted(id, false) then [id] else [])
      ensures reply != ErrRejected
      ensures reply == ErrStorageUnavailable ==> insert != Answered || !lookupUp || id in old(repo.rows)
      ensures insert == Answered && lookupUp && id !in old(repo.rows) ==> AnsweredLike(cmd, id, old(repo.rows), reply)
    {
      ghost var step := InsertRow(c, id, insert != NotRun, insert == Answered);
      ghost var isNew := id !in repo.rows;
      ghost var e := s;
      run := [step];
      if isNew {
        OneStep(codec, s, step);
        e := Apply(codec, s, step);
      }
      if insert == NotRun {
        return ErrStorageUnavailable, run;
      }
      if isNew {
        InsertIsAStep(codec, s, c, cmd, repo.rows, id, now, insert == Answered);
      }
      var err := repo.Insert(NewRow(codec, cmd, id), now);
      assert e.rows == Identities(repo.rows);
      if insert == AnswerLost {
        return ErrStorageUnavailable, run;
      }
      if err == ErrDuplicateSourceRequest {
        ghost var find;
        reply, find := AnswerDuplicate(cmd, lookupUp, e, c, if isNew then LookingAgain else Inserting);
        if isNew {
          AppendStep(codec, s, run, find);
        }
        return reply, run + [find];
      }
      MarkKeepsIdentities(repo.rows, id, now);
      var _ := PublishAndMark(broker, repo, id, receipt, mark, now);
      return Accepted(id, false), run;
    }

    /** Submit, whatever the table holds and wherever the other calls of the system stand: table and reply are
        those of a run of this call's own steps. */
    method Submit(cmd: Command, valid: bool, id: EventId, now: Time, firstUp: bool, insert: Fate, lookupUp: bool,
                  receipt: Receipt, mark: Fate, ghost s: System, ghost c: nat)
      returns (reply: Reply, ghost run: seq<Step>)
      requires repo.Valid() && s.rows == Identities(repo.rows) && c !in s.clients
      modifies repo, broker
      ensures repo.Valid()
      ensures forall i :: 0 <= i < |run| ==> run[i].c == c
      ensures id !in old(repo.rows) ==>
                && Legal(codec, s, run) && After(codec, s, run).rows == Identities(repo.rows)
                && c in After(codec, s, run).clients && After(codec, s, run).clients[c].call == Replied(reply)
      ensures id in old(repo.rows) ==> repo.rows == old(repo.rows) && !(reply.Accepted? && !reply.duplicate)
      ensures reply == ErrRejected <==> !valid
      ensures reply.Accepted? && !reply.duplicate ==>
                reply.id == id && id in repo.rows && repo.rows[id].status == PENDING
      ensures broker.published == old(broker.published) + (if reply.Accepted? && !reply.duplicate then [id] else [])
      ensures reply == ErrStorageUnavailable ==> !firstUp || insert != Answered || !lookupUp || id in old(repo.rows)
      ensures valid && firstUp && insert == Answered && lookupUp && id !in old(repo.rows) ==>
                AnsweredLike(cmd, id, old(repo.rows), reply)
    {
      run := [Begin(c, cmd, valid)];
      OneStep(codec, s, run[0]);
      if !valid {
        return ErrRejected, run;
      }
      ghost var e := After(codec, s, run);
      var found := ResolveExisting(cmd, firstUp, e, c, Looking);
      AppendStep(codec, s, run, Find(c, firstUp));
      run := run + [Find(c, firstUp)];
      if found.Some? {
        return found.value, run;
      }
      e := After(codec, s, run);
      ghost var rest;
      reply, rest := InsertOrResolve(cmd, id, now, insert, lookupUp, receipt, mark, e, c);
      if id !in old(repo.rows) {
        RunsCompose(codec, s, run, rest);
      }
      run := run + rest;
    }
  }
}
