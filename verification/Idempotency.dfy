/** Idempotent commands: the key a request carries, the record filed under command and key, and what a retry gets. */
module Idempotency {
  import opened Text

  // ---- keys and record ids ----

  /** The two headers, as received. */
  datatype Headers = Headers(primary: Option<string>, fallback: Option<string>)

  /** A missing or empty first header falls back to the second. */
  function Chosen(headers: Headers): Option<string> {
    if headers.primary.Some? && headers.primary.value != "" then headers.primary else headers.fallback
  }

  predicate Blank(s: string) {
    forall i :: 0 <= i < |s| ==> Space(s[i])
  }

  ghost predicate Around(s: string, inner: string) {
    exists left, right :: Blank(left) && Blank(right) && s == left + inner + right
  }

  /** `inner` is `s` without the white space around it, and neither starts nor ends with any. */
  ghost predicate Trims(s: string, inner: string) {
    && inner != "" && !Space(inner[0]) && !Space(inner[|inner| - 1])
    && Around(s, inner)
  }

  /** There is no key exactly when the chosen header is missing or blank; else the key is that header without outer white space. */
  function IdempotencyKey(headers: Headers): (key: Option<string>)
    ensures key.None? <==> Chosen(headers).None? || Blank(Chosen(headers).value)
    ensures key.Some? ==> Chosen(headers).Some? && Trims(Chosen(headers).value, key.value)
  {
    var key := if headers.primary.Some? && headers.primary.value != "" then headers.primary else headers.fallback;
    if key.None? then None
    else
      StripTrims(key.value);
      if Strip(key.value) == "" then None
      else Some(Strip(key.value))
  }

  /** With a good second header there is no key exactly when the first is there but blank: it hides the second. */
  lemma BlankPrimaryHidesFallback(primary: Option<string>, fallback: string)
    requires !Blank(fallback)
    ensures IdempotencyKey(Headers(primary, Some(fallback))).None? <==> primary.Some? && primary.value != "" && Blank(primary.value)
  {
  }

  lemma {:induction false} BlankStripsAway(blank: string)
    requires Blank(blank)
    ensures StripLeft(blank) == ""
  {
    if blank != "" {
      BlankStripsAway(blank[1..]);
    }
  }

  lemma {:induction false} StripRightDrops(s: string)
    ensures Blank(s[|StripRight(s)|..])
  {
    if s != "" && Space(s[|s| - 1]) {
      var init := s[..|s| - 1];
      StripRightDrops(init);
      assert s[|StripRight(s)|..] == init[|StripRight(init)|..] + [s[|s| - 1]];
    }
  }

  lemma SpacesLeft(s: string) returns (left: string)
    ensures Blank(left) && s == left + StripLeft(s)
  {
    StripLeftSuffix(s);
    left := s[..|s| - |StripLeft(s)|];
  }

  lemma SpacesRight(s: string) returns (right: string)
    ensures Blank(right) && s == StripRight(s) + right
  {
    StripRightDrops(s);
    right := s[|StripRight(s)|..];
  }

  lemma Associates(a: string, b: string, c: string)
    ensures a + (b + c) == a + b + c
  {
  }

  lemma StripSplits(s: string)
    ensures Around(s, Strip(s))
  {
    var left := SpacesLeft(s);
    var right := SpacesRight(StripLeft(s));
    Associates(left, Strip(s), right);
  }

  lemma BlankAround(s: string, inner: string)
    requires Around(s, inner) && (inner != "" ==> !Space(inner[0]))
    ensures Blank(s) <==> inner == ""
  {
    var left, right :| Blank(left) && Blank(right) && s == left + inner + right;
    if inner != "" {
      assert s[|left|] == inner[0];
    }
  }

  lemma StripTrims(s: string)
    ensures Strip(s) == "" <==> Blank(s)
    ensures Strip(s) != "" ==> Trims(s, Strip(s))
  {
    StripSplits(s);
    BlankAround(s, Strip(s));
  }

  function RecordId(command: string, key: string): string {
    command + ":" + key
  }

  predicate ColonFree(s: string) {
    forall i :: 0 <= i < |s| ==> s[i] != ':'
  }

  /** Two commands can share a record id exactly when they are the same command with the same key, or one of them goes on
      with a colon where the other ends. */
  lemma RecordIdsClashIff(c: string, d: string)
    ensures (exists k, l :: RecordId(c, k) == RecordId(d, l) && (c != d || k != l)) <==> c + ":" <= d || d + ":" <= c
  {
    if k, l :| RecordId(c, k) == RecordId(d, l) && (c != d || k != l) {
      ClashIsPrefix(c, k, d, l);
    }
    if c + ":" <= d {
      PrefixClashes(c, d);
    }
    if d + ":" <= c {
      PrefixClashes(d, c);
      var k, l :| RecordId(d, k) == RecordId(c, l) && (d != c || k != l);
      assert RecordId(c, l) == RecordId(d, k) && (c != d || l != k);
    }
  }

  lemma ClashIsPrefix(c: string, k: string, d: string, l: string)
    requires RecordId(c, k) == RecordId(d, l)
    ensures (c == d && k == l) || c + ":" <= d || d + ":" <= c
  {
    var id := RecordId(c, k);
    assert id[..|c|] == c && id[|c|] == ':' && id[|c| + 1..] == k;
    assert id[..|d|] == d && id[|d|] == ':' && id[|d| + 1..] == l;
    if |c| < |d| {
      assert d[..|c|] == c && d[|c|] == ':';
      assert (c + ":") == d[..|c| + 1];
    } else if |d| < |c| {
      assert c[..|d|] == d && c[|d|] == ':';
      assert (d + ":") == c[..|d| + 1];
    }
  }

  lemma PrefixClashes(c: string, d: string)
    requires c + ":" <= d
    ensures exists k, l :: RecordId(c, k) == RecordId(d, l) && (c != d || k != l)
  {
    var rest := d[|c| + 1..];
    assert d == (c + ":") + rest;
    assert RecordId(c, rest + ":" + "x") == RecordId(d, "x");
    assert |c| < |d|;
  }

  /** The commands of the API. */
  datatype Command =
    | RunsIngest | RunsAnalyze | RunsReplay | FindingsStatus
    | ScheduleConfigure | ScheduleRunNow | DashboardWorkQueueAssignment | AdminModelProfileActivate
    | AdminModelProfileRollback | AdminPromptVersionActivate | AdminPromptVersionRollback | FeedbackRecord
    | ImprovementsActivate | ImprovementsRollback | ApprovalsDecision | AuditArchivePrune

  function CommandName(command: Command): string
  {
    match command
    case RunsIngest => "runs.ingest"
    case RunsAnalyze => "runs.analyze"
    case RunsReplay => "runs.replay"
    case FindingsStatus => "findings.status"
    case ScheduleConfigure => "schedule.configure"
    case ScheduleRunNow => "schedule.run_now"
    case DashboardWorkQueueAssignment => "dashboard.work_queue_assignment"
    case AdminModelProfileActivate => "admin.model_profile.activate"
    case AdminModelProfileRollback => "admin.model_profile.rollback"
    case AdminPromptVersionActivate => "admin.prompt_version.activate"
    case AdminPromptVersionRollback => "admin.prompt_version.rollback"
    case FeedbackRecord => "feedback.record"
    case ImprovementsActivate => "improvements.activate"
    case ImprovementsRollback => "improvements.rollback"
    case ApprovalsDecision => "approvals.decision"
    case AuditArchivePrune => "audit.archive_prune"
  }

  lemma RunNamesHaveNoColon(command: Command)
    requires command.RunsIngest? || command.RunsAnalyze? || command.RunsReplay? || command.FindingsStatus?
             || command.ScheduleConfigure? || command.ScheduleRunNow?
    ensures ColonFree(CommandName(command))
  {
  }

  lemma AdminNamesHaveNoColon(command: Command)
    requires command.AdminModelProfileActivate? || command.AdminModelProfileRollback?
             || command.AdminPromptVersionActivate? || command.AdminPromptVersionRollback?
    ensures ColonFree(CommandName(command))
  {
  }

  lemma ReviewNamesHaveNoColon(command: Command)
    requires command.DashboardWorkQueueAssignment? || command.FeedbackRecord? || command.ImprovementsActivate?
             || command.ImprovementsRollback? || command.ApprovalsDecision? || command.AuditArchivePrune?
    ensures ColonFree(CommandName(command))
  {
  }

  lemma NamesHaveNoColon(command: Command)
    ensures ColonFree(CommandName(command))
  {
    match command
    case RunsIngest | RunsAnalyze | RunsReplay | FindingsStatus | ScheduleConfigure | ScheduleRunNow => RunNamesHaveNoColon(command);
    case AdminModelProfileActivate | AdminModelProfileRollback | AdminPromptVersionActivate | AdminPromptVersionRollback =>
      AdminNamesHaveNoColon(command);
    case _ => ReviewNamesHaveNoColon(command);
  }

  lemma PrefixHasColon(c: string, d: string)
    requires c + ":" <= d
    ensures !ColonFree(d)
  {
    assert d[|c|] == (c + ":")[|c|] == ':';
  }

  lemma ClashHasColon(c: string, k: string, d: string, l: string)
    requires RecordId(c, k) == RecordId(d, l)
    ensures (c == d && k == l) || !ColonFree(c) || !ColonFree(d)
  {
    ClashIsPrefix(c, k, d, l);
    if c + ":" <= d {
      PrefixHasColon(c, d);
    } else if d + ":" <= c {
      PrefixHasColon(d, c);
    }
  }

  /** Distinct pairs of a colon-free command and a key have distinct record ids. */
  lemma RecordIdInjective(c: string, k: string, d: string, l: string)
    requires ColonFree(c) && ColonFree(d)
    ensures RecordId(c, k) == RecordId(d, l) <==> c == d && k == l
  {
    if RecordId(c, k) == RecordId(d, l) {
      ClashHasColon(c, k, d, l);
    }
  }

  // ---- serving a request ----

  /** `payload` is what the caller supplied explicitly, and the hash (taken to be injective) of which is kept; `input` is
      the whole command, with defaults such as the time of the decision filled in by the server. */
  datatype Request<I, P> = Request(command: string, headers: Headers, payload: P, input: I)

  datatype Record<P, R> = Record(command: string, key: string, requestHash: P, response: R)

  datatype Context<P, R> = Context(key: Option<string>, requestHash: P, cached: Option<R>)

  datatype Prepared<P, R> = Proceed(context: Context<P, R>) | Reused(key: string)

  datatype Outcome<R> = Done(response: R) | Refused | Conflict | Failed

  datatype World<S, P, R> = World(state: S, results: map<string, Record<P, R>>)

  /** A command of the API: the checks it makes before the idempotency check, and its effect. A handler that raises may
      leave effects behind and gives no response. */
  datatype Handler<!S, !I, R> = Handler(admits: (S, I) -> bool, run: (S, I) -> (S, Option<R>))

  type Api<!S, !I, R> = string -> Handler<S, I, R>

  function Prepare<I, P(==), R>(results: map<string, Record<P, R>>, request: Request<I, P>): Prepared<P, R> {
    var key := IdempotencyKey(request.headers);
    if key.None? then Proceed(Context(None, request.payload, None))
    else
      var id := RecordId(request.command, key.value);
      if id !in results then Proceed(Context(key, request.payload, None))
      else if results[id].requestHash != request.payload then Reused(key.value)
      else Proceed(Context(key, request.payload, Some(results[id].response)))
  }

  function File<P, R>(results: map<string, Record<P, R>>, command: string, context: Context<P, R>, response: R): map<string, Record<P, R>> {
    if context.key.None? then results
    else results[RecordId(command, context.key.value) := Record(command, context.key.value, context.requestHash, response)]
  }

  ghost predicate Answered<I, P, R>(results: map<string, Record<P, R>>, request: Request<I, P>, response: R)
    requires IdempotencyKey(request.headers).Some?
  {
    var id := RecordId(request.command, IdempotencyKey(request.headers).value);
    id in results && results[id].requestHash == request.payload && results[id].response == response
  }

  /** Checks first, then the record of an earlier request, then the effect, and its record if it succeeded. */
  function Serve<S, I, P(==), R>(api: Api<S, I, R>, w: World<S, P, R>, request: Request<I, P>): (World<S, P, R>, Outcome<R>) {
    var handler := api(request.command);
    if !handler.admits(w.state, request.input) then (w, Refused)
    else
      match Prepare(w.results, request)
      case Reused(_) => (w, Conflict)
      case Proceed(context) =>
        if context.cached.Some? then (w, Done(context.cached.value))
        else
          var (state, response) := handler.run(w.state, request.input);
          if response.None? then (World(state, w.results), Failed)
          else (World(state, File(w.results, request.command, context, response.value)), Done(response.value))
  }

  class RuntimeState<S, P(==), R> {
    var state: S
    var results: map<string, Record<P, R>>

    constructor (state: S)
      ensures Value() == World(state, map[])
    {
      this.state := state;
      results := map[];
    }

    ghost function Value(): World<S, P, R>
      reads this
    {
      World(state, results)
    }

    method PrepareIdempotency<I>(request: Request<I, P>) returns (prepared: Prepared<P, R>)
      ensures prepared == Prepare(results, request)
    {
      var key := IdempotencyKey(request.headers);
      if key.None? {
        return Proceed(Context(None, request.payload, None));
      }
      var id := RecordId(request.command, key.value);
      if id !in results {
        return Proceed(Context(key, request.payload, None));
      }
      if results[id].requestHash != request.payload {
        return Reused(key.value);
      }
      return Proceed(Context(key, request.payload, Some(results[id].response)));
    }

    method RecordIdempotencyResponse(context: Context<P, R>, command: string, response: R)
      modifies this`results
      ensures results == File(old(results), command, context, response)
    {
      if context.key.None? {
        return;
      }
      results := results[RecordId(command, context.key.value) := Record(command, context.key.value, context.requestHash, response)];
    }

    /** The pattern every command handler follows. A response under a key is on file with the payload that got it, no record is ever
        replaced, and without a response nothing is filed. */
    method Handle<I>(api: Api<S, I, R>, request: Request<I, P>) returns (outcome: Outcome<R>)
      modifies this
      ensures (Value(), outcome) == Serve(api, old(Value()), request)
      ensures outcome.Done? && IdempotencyKey(request.headers).Some? ==>
                Answered(results, request, outcome.response)
      ensures forall id :: id in old(results) ==> id in results && results[id] == old(results)[id]
      ensures outcome.Refused? || outcome.Conflict? ==> Value() == old(Value())
      ensures outcome.Failed? ==> results == old(results)
    {
      var handler := api(request.command);
      if !handler.admits(state, request.input) {
        return Refused;
      }
      var prepared := PrepareIdempotency(request);
      if prepared.Reused? {
        return Conflict;
      }
      if prepared.context.cached.Some? {
        return Done(prepared.context.cached.value);
      }
      var (after, response) := handler.run(state, request.input);
      state := after;
      if response.None? {
        return Failed;
      }
      RecordIdempotencyResponse(prepared.context, request.command, response.value);
      outcome := Done(response.value);
    }
  }

  // ---- every sequence of requests ----

  function ServeAll<S, I, P(==), R>(api: Api<S, I, R>, w: World<S, P, R>, requests: seq<Request<I, P>>): World<S, P, R>
    decreases |requests|
  {
    if requests == [] then w
    else ServeAll(api, Serve(api, w, requests[0]).0, requests[1..])
  }

  /** A request with this command and this key. */
  predicate For<I, P>(request: Request<I, P>, command: string, key: string) {
    request.command == command && IdempotencyKey(request.headers) == Some(key)
  }

  /** The request is carried out here, rather than refused or answered from a record, and gives a response. */
  predicate TakesEffect<S, I, P(==), R>(api: Api<S, I, R>, w: World<S, P, R>, request: Request<I, P>) {
    && api(request.command).admits(w.state, request.input)
    && Prepare(w.results, request).Proceed?
    && Prepare(w.results, request).context.cached.None?
    && api(request.command).run(w.state, request.input).1.Some?
  }

  /** How often a command is carried out with a response under a key. */
  function Effects<S, I, P(==), R>(api: Api<S, I, R>, w: World<S, P, R>, requests: seq<Request<I, P>>, command: string, key: string): nat
    decreases |requests|
  {
    if requests == [] then 0
    else
      (if For(requests[0], command, key) && TakesEffect(api, w, requests[0]) then 1 else 0)
      + Effects(api, Serve(api, w, requests[0]).0, requests[1..], command, key)
  }

  ghost predicate ChangesState<S, I, P, R>(api: Api<S, I, R>, w: World<S, P, R>, request: Request<I, P>) {
    Serve(api, w, request).0.state != w.state
  }

  /** How often serving a command under a key changes the state, with or without a response. */
  ghost function Changes<S, I, P, R>(api: Api<S, I, R>, w: World<S, P, R>, requests: seq<Request<I, P>>, command: string, key: string): nat
    decreases |requests|
  {
    if requests == [] then 0
    else
      (if For(requests[0], command, key) && ChangesState(api, w, requests[0]) then 1 else 0)
      + Changes(api, Serve(api, w, requests[0]).0, requests[1..], command, key)
  }

  /** A run that raises leaves the state as it was. */
  ghost predicate Atomic<S(!new), I(!new), R>(handler: Handler<S, I, R>) {
    forall state, input :: handler.admits(state, input) && handler.run(state, input).1.None? ==> handler.run(state, input).0 == state
  }

  predicate Commands<I, P>(requests: seq<Request<I, P>>) {
    forall i :: 0 <= i < |requests| ==> ColonFree(requests[i].command)
  }

  /** A record, once there, stays as it is: nothing is filed under its id again. */
  lemma RecordStays<S, I, P, R>(api: Api<S, I, R>, w: World<S, P, R>, request: Request<I, P>, command: string, key: string)
    requires ColonFree(command) && ColonFree(request.command) && RecordId(command, key) in w.results
    ensures var after := Serve(api, w, request).0;
            RecordId(command, key) in after.results && after.results[RecordId(command, key)] == w.results[RecordId(command, key)]
    ensures For(request, command, key) ==> !TakesEffect(api, w, request)
  {
    var k := IdempotencyKey(request.headers);
    if k.Some? {
      RecordIdInjective(request.command, k.value, command, key);
    }
  }

  lemma {:induction false} RecordsStay<S, I, P, R>(api: Api<S, I, R>, w: World<S, P, R>, requests: seq<Request<I, P>>, command: string, key: string)
    requires ColonFree(command) && Commands(requests) && RecordId(command, key) in w.results
    ensures var after := ServeAll(api, w, requests);
            RecordId(command, key) in after.results && after.results[RecordId(command, key)] == w.results[RecordId(command, key)]
    ensures Effects(api, w, requests, command, key) == 0
    decreases |requests|
  {
    if requests != [] {
      RecordStays(api, w, requests[0], command, key);
      RecordsStay(api, Serve(api, w, requests[0]).0, requests[1..], command, key);
    }
  }

  /** An effect under a key leaves its record. */
  lemma EffectIsFiled<S, I, P, R>(api: Api<S, I, R>, w: World<S, P, R>, request: Request<I, P>, key: string)
    requires TakesEffect(api, w, request) && IdempotencyKey(request.headers) == Some(key)
    ensures var (after, outcome) := Serve(api, w, request);
            var id := RecordId(request.command, key);
            outcome.Done? && id in after.results && after.results[id] == Record(request.command, key, request.payload, outcome.response)
  {
  }

  lemma AnsweredFromRecord<S, I, P, R>(api: Api<S, I, R>, w: World<S, P, R>, request: Request<I, P>, key: string, record: Record<P, R>)
    requires IdempotencyKey(request.headers) == Some(key)
    requires RecordId(request.command, key) in w.results && w.results[RecordId(request.command, key)] == record
    ensures Serve(api, w, request) ==
            (w, if !api(request.command).admits(w.state, request.input) then Refused
                else if request.payload == record.requestHash then Done(record.response) else Conflict)
  {
  }

  /** Over every sequence of requests each command gives at most one response of its own under a key. */
  lemma {:induction false} AtMostOneResponse<S, I, P, R>(api: Api<S, I, R>, w: World<S, P, R>, requests: seq<Request<I, P>>, command: string, key: string)
    requires ColonFree(command) && Commands(requests)
    ensures Effects(api, w, requests, command, key) <= 1
    decreases |requests|
  {
    if requests != [] {
      var after := Serve(api, w, requests[0]).0;
      if For(requests[0], command, key) && TakesEffect(api, w, requests[0]) {
        EffectIsFiled(api, w, requests[0], key);
        RecordsStay(api, after, requests[1..], command, key);
      } else {
        AtMostOneResponse(api, after, requests[1..], command, key);
      }
    }
  }

  lemma AtomicChangeResponds<S(!new), I(!new), P, R>(api: Api<S, I, R>, w: World<S, P, R>, request: Request<I, P>)
    requires Atomic(api(request.command)) && ChangesState(api, w, request)
    ensures TakesEffect(api, w, request)
  {
  }

  lemma {:induction false} AtomicChangesRespond<S(!new), I(!new), P, R>(api: Api<S, I, R>, w: World<S, P, R>, requests: seq<Request<I, P>>, command: string, key: string)
    requires Atomic(api(command))
    ensures Changes(api, w, requests, command, key) <= Effects(api, w, requests, command, key)
    decreases |requests|
  {
    if requests != [] {
      if For(requests[0], command, key) && ChangesState(api, w, requests[0]) {
        AtomicChangeResponds(api, w, requests[0]);
      }
      AtomicChangesRespond(api, Serve(api, w, requests[0]).0, requests[1..], command, key);
    }
  }

  /** If its runs leave nothing behind when they raise, a command changes the state at most once under a key. */
  lemma AtMostOnce<S(!new), I(!new), P, R>(api: Api<S, I, R>, w: World<S, P, R>, requests: seq<Request<I, P>>, command: string, key: string)
    requires ColonFree(command) && Commands(requests) && Atomic(api(command))
    ensures Changes(api, w, requests, command, key) <= 1
  {
    AtomicChangesRespond(api, w, requests, command, key);
    AtMostOneResponse(api, w, requests, command, key);
  }

  /** What puts a state back, and gives no response. */
  ghost function Reset<S, I, R>(state: S): Handler<S, I, R> {
    Handler((s: S, input: I) => true, (s: S, input: I) => (state, None))
  }

  ghost function With<S, I, R>(command: string, handler: Handler<S, I, R>, other: Handler<S, I, R>): Api<S, I, R> {
    (c: string) => if c == command then handler else other
  }

  /** A run that raises and leaves something behind is carried out again under its key once another command has put things back. */
  lemma RaisingChangesTwice<S, I, P, R>(handler: Handler<S, I, R>, command: string, headers: Headers, payload: P, state: S, input: I)
    requires ColonFree(command) && IdempotencyKey(headers).Some?
    requires handler.admits(state, input) && handler.run(state, input).1.None? && handler.run(state, input).0 != state
    ensures exists api: Api<S, I, R>, requests: seq<Request<I, P>> ::
              api(command) == handler && Commands(requests)
              && Changes(api, World(state, map[]), requests, command, IdempotencyKey(headers).value) > 1
  {
    var other := if command == "a" then "b" else "a";
    var api := With(command, handler, Reset(state));
    var key := IdempotencyKey(headers).value;
    var r, z := Request(command, headers, payload, input), Request(other, headers, payload, input);
    var start: World<S, P, R> := World(state, map[]);
    var left: World<S, P, R> := World(handler.run(state, input).0, map[]);
    assert Serve(api, start, r).0 == left && Serve(api, left, z).0 == start;
    assert Changes(api, start, [r], command, key) == 1 by { assert [r][1..] == []; }
    assert Changes(api, left, [z, r], command, key) == 1 by { assert [z, r][1..] == [r]; }
    assert Changes(api, start, [r, z, r], command, key) == 2 by { assert [r, z, r][1..] == [z, r]; }
    assert Commands([r, z, r]);
  }

  /** The command with the persist call that follows its effect: when that raises, what was done stays and there is no response. */
  function ThenPersist<S, I, R>(handler: Handler<S, I, R>, persists: S -> bool): Handler<S, I, R> {
    Handler(handler.admits,
            (state: S, input: I) =>
              var (after, response) := handler.run(state, input);
              (after, if persists(after) then response else None))
  }

  /** Persisting keeps a command atomic exactly when it succeeds after every run that changes something. */
  lemma PersistKeepsAtomicIff<S(!new), I(!new), R>(handler: Handler<S, I, R>, persists: S -> bool)
    requires Atomic(handler)
    ensures Atomic(ThenPersist(handler, persists)) <==>
            forall state, input :: handler.admits(state, input) && handler.run(state, input).0 != state ==> persists(handler.run(state, input).0)
  {
    var both := ThenPersist(handler, persists);
    forall state, input
      ensures both.admits(state, input) == handler.admits(state, input) && both.run(state, input).0 == handler.run(state, input).0
      ensures both.run(state, input).1.None? <==> handler.run(state, input).1.None? || !persists(handler.run(state, input).0)
    {
    }
  }

  /** The condition is exact: whatever the other commands do, the state changes at most once under a key if and only if no run that
      raises leaves something behind. */
  lemma AtMostOnceIff<S(!new), I(!new), P, R>(handler: Handler<S, I, R>, command: string, headers: Headers, payload: P)
    requires ColonFree(command) && IdempotencyKey(headers).Some?
    ensures Atomic(handler) <==>
            forall api: Api<S, I, R>, w: World<S, P, R>, requests: seq<Request<I, P>> ::
              api(command) == handler && Commands(requests) ==>
                Changes(api, w, requests, command, IdempotencyKey(headers).value) <= 1
  {
    var key := IdempotencyKey(headers).value;
    forall api: Api<S, I, R>, w: World<S, P, R>, requests: seq<Request<I, P>> | Atomic(handler) && api(command) == handler && Commands(requests)
      ensures Changes(api, w, requests, command, key) <= 1
    {
      AtMostOnce(api, w, requests, command, key);
    }
    if state, input :| handler.admits(state, input) && handler.run(state, input).1.None? && handler.run(state, input).0 != state {
      RaisingChangesTwice(handler, command, headers, payload, state, input);
    }
  }
  /** What a retry gets after any further requests: with the same payload the first response, with another payload a
      conflict, and in both cases the runtime as it is. */
  lemma RetryGetsFirstResponse<S, I, P, R>(api: Api<S, I, R>, w: World<S, P, R>, first: Request<I, P>, between: seq<Request<I, P>>, retry: Request<I, P>)
    requires ColonFree(first.command) && Commands(between) && TakesEffect(api, w, first)
    requires IdempotencyKey(first.headers).Some?
    requires retry.command == first.command && IdempotencyKey(retry.headers) == IdempotencyKey(first.headers)
    ensures var (start, done) := Serve(api, w, first);
            var later := ServeAll(api, start, between);
            var (after, outcome) := Serve(api, later, retry);
            && after == later
            && outcome == (if !api(retry.command).admits(later.state, retry.input) then Refused
                           else if retry.payload == first.payload then done else Conflict)
  {
    var key := IdempotencyKey(first.headers).value;
    var (start, done) := Serve(api, w, first);
    EffectIsFiled(api, w, first, key);
    RecordsStay(api, start, between, first.command, key);
    AnsweredFromRecord(api, ServeAll(api, start, between), retry, key, Record(first.command, key, first.payload, done.response));
  }

  /** Without a key a request is carried out every time and files nothing; so does a request whose handler fails. */
  lemma NothingFiled<S, I, P, R>(api: Api<S, I, R>, w: World<S, P, R>, request: Request<I, P>)
    requires IdempotencyKey(request.headers).None? || api(request.command).run(w.state, request.input).1.None?
    ensures Serve(api, w, request).0.results == w.results
    ensures IdempotencyKey(request.headers).None? && api(request.command).admits(w.state, request.input) ==>
              Serve(api, w, request).0.state == api(request.command).run(w.state, request.input).0
  {
  }
}
