/** Auditing a company run: every session reachable through tool-call results is read once, its cost
    added once, and the run called complete only if nothing went wrong anywhere. */
module TraceAudit {
  import opened Options
  import opened ConfigValue
  import opened BreadthFirst
  import opened Collections
  import Strings = Text

  type Event = map<string, Value>

  /** The parsed trace of each session; a session without one has no trace file. */
  type Traces = map<string, seq<Event>>

  datatype Failure =
    | RootOutcome(outcome: Value)
    | MissingFinalText
    | MissingSessionId
    | MissingTrace
    | CostUnaccounted
    | NestedOutcome(outcome: Value)
    | Truncation
    | Timeout
    | MissingCostUsage
    | MissingDelegation(name: string)
    | FailedDelegation(name: string, reported: Option<string>)

  datatype Analysis = Analysis(
    complete: bool,
    failures: set<Failure>,
    totalCost: Option<real>,
    guidelines: int,
    kinds: set<string>)

  predicate Succeeded(outcome: Value) {
    outcome == Text("success") || outcome == Text("success_with_recovery")
  }

  predicate HasType(e: Event, name: string) {
    Get(e, "type") == Text(name)
  }

  // ---------------------------------------------------------------- one event

  /** The cost an event adds: its own session's, during or after the run. */
  function CostOf(e: Event): Option<real> {
    if HasType(e, "usage") || HasType(e, "post_run_usage") then Number(Get(e, "cost_usd")) else None
  }

  function GuidelinesOf(e: Event): int {
    if !HasType(e, "usage") then 0
    else
      match Whole(Get(e, "guidelines_retrieved"))
      case Some(n) => n
      case None => 0
  }

  function KindsOf(e: Event): set<string> {
    if !HasType(e, "retrieval") then {}
    else
      var candidates := Get(e, "candidates");
      if !candidates.List? then {}
      else set c | c in candidates.items && c.Map? && Get(c.entries, "kind").Text? :: Get(c.entries, "kind").text
  }

  /** The mapping a tool call returned. */
  function ResultOf(e: Event): Option<map<string, Value>> {
    if HasType(e, "tool_call") && Get(e, "result").Map? then Some(Get(e, "result").entries) else None
  }

  /** The sub-agent's own report inside it. */
  function ReportOf(e: Event): Option<map<string, Value>> {
    match ResultOf(e)
    case None => None
    case Some(result) =>
      if Get(result, "result").Map? then Some(Get(result, "result").entries) else None
  }

  /** The child session a tool call started. */
  function ChildOf(e: Event): Option<string> {
    match ReportOf(e)
    case None => None
    case Some(report) =>
      var session := Get(report, "session_id");
      if session.Text? && session.text != "" then Some(session.text) else None
  }

  predicate CallOk(e: Event) {
    ResultOf(e).Some? && Get(ResultOf(e).value, "ok") == Bool(true)
  }

  /** What is searched for signs of truncation and timeouts. */
  function FailurePayload(e: Event): Option<Value> {
    if HasType(e, "cost_unaccounted") || HasType(e, "failed") || HasType(e, "error") || HasType(e, "incomplete")
    then Some(Map(e))
    else if ResultOf(e).Some? && !CallOk(e) then Some(Map(ResultOf(e).value))
    else None
  }

  function EventFailures(e: Event): set<Failure> {
    (if HasType(e, "cost_unaccounted") then {CostUnaccounted} else {})
    + (if ChildOf(e).Some? && !Succeeded(Get(ReportOf(e).value, "outcome"))
       then {NestedOutcome(Get(ReportOf(e).value, "outcome"))} else {})
  }

  /** The outcome a tool call reports for a delegation, if it reports on one at all. */
  function DelegationOf(e: Event, name: string): Option<Option<string>> {
    if Get(e, "name") != Text(name) || ReportOf(e).None? then None
    else
      var outcome := Get(ReportOf(e).value, "outcome");
      Some(if CallOk(e) && outcome.Text? then Some(outcome.text) else None)
  }

  // ---------------------------------------------------------------- failure texts

  /** The strings under an `error`, `reason`, `stderr` or `stderr_tail` key, at any depth. */
  function FailureTexts(v: Value, key: string): set<string>
    decreases v
  {
    match v
    case Map(m) => set k, s | k in m && s in FailureTexts(m[k], k) :: s
    case List(l) => set i, s | 0 <= i < |l| && s in FailureTexts(l[i], key) :: s
    case Text(t) => if key in {"error", "reason", "stderr", "stderr_tail"} then {t} else {}
    case _ => {}
  }

  predicate Contains(s: string, part: string) {
    exists i :: 0 <= i <= |s| && part <= s[i..]
  }

  /** Some failure text mentions `part`, upper and lower case folded together. */
  predicate Mentions(fold: string -> string, payloads: seq<Value>, part: string) {
    exists p :: p in payloads && exists t :: t in FailureTexts(p, "") && Contains(fold(t), part)
  }

  // ---------------------------------------------------------------- one session

  function AddCost(total: real, e: Event): real {
    match CostOf(e)
    case Some(c) => total + c
    case None => total
  }

  /** The sum of the session's own costs. */
  function SessionCost(events: seq<Event>): real {
    if events == [] then 0.0 else AddCost(SessionCost(events[..|events| - 1]), events[|events| - 1])
  }

  predicate Costed(events: seq<Event>) {
    exists e :: e in events && CostOf(e).Some?
  }

  function SessionGuidelines(events: seq<Event>): int {
    if events == [] then 0
    else SessionGuidelines(events[..|events| - 1]) + GuidelinesOf(events[|events| - 1])
  }

  function SessionKinds(events: seq<Event>): set<string> {
    set e, k | e in events && k in KindsOf(e) :: k
  }

  function ChildSessions(events: seq<Event>): seq<string> {
    if events == [] then []
    else
      ChildSessions(events[..|events| - 1])
      + (match ChildOf(events[|events| - 1]) case Some(c) => [c] case None => [])
  }

  function Payloads(events: seq<Event>): seq<Value> {
    if events == [] then []
    else
      Payloads(events[..|events| - 1])
      + (match FailurePayload(events[|events| - 1]) case Some(p) => [p] case None => [])
  }

  function SessionFailures(fold: string -> string, events: seq<Event>): set<Failure> {
    if events == [] then {MissingTrace}
    else
      (set e, f | e in events && f in EventFailures(e) :: f)
      + (if Mentions(fold, Payloads(events), "max_tokens") || Mentions(fold, Payloads(events), "truncat")
         then {Truncation} else {})
      + (if Mentions(fold, Payloads(events), "timeout") then {Timeout} else {})
  }

  /** The last outcome the session's tool calls report for a delegation. */
  function LastDelegation(events: seq<Event>, name: string): Option<Option<string>> {
    if events == [] then None
    else
      var last := DelegationOf(events[|events| - 1], name);
      if last.Some? then last else LastDelegation(events[..|events| - 1], name)
  }

  // ---------------------------------------------------------------- the whole run

  function Trace(traces: Traces, session: string): seq<Event> {
    if session in traces then traces[session] else []
  }

  function Started(traces: Traces, session: string): seq<string> {
    ChildSessions(Trace(traces, session))
  }

  function StartedBy(traces: Traces): string -> seq<string> {
    (session: string) => Started(traces, session)
  }

  function LeadsTo(traces: Traces): string -> set<string> {
    (session: string) => set c | c in Started(traces, session)
  }

  function Itself(): string -> string {
    (session: string) => session
  }

  function Sessions(traces: Traces, root: string): set<string> {
    {root} + set s, c | s in traces && c in Started(traces, s) :: c
  }

  lemma SessionsFit(traces: Traces, root: string)
    ensures Follows(StartedBy(traces), Itself(), LeadsTo(traces))
    ensures Closed(LeadsTo(traces), Sessions(traces, root))
    ensures KeysOf([root], Itself()) == {root} <= Sessions(traces, root)
  {
    hide ChildSessions;
    forall s: string ensures KeysOf(StartedBy(traces)(s), Itself()) == LeadsTo(traces)(s) {
    }
    forall s: string | s !in traces ensures Started(traces, s) == [] {
      NothingStarted();
    }
  }

  lemma NothingStarted()
    ensures ChildSessions([]) == []
  {
  }

  /** The sessions read, in order. */
  ghost function ReadOrder(traces: Traces, root: string): seq<string> {
    SessionsFit(traces, root);
    Visit(StartedBy(traces), Itself(), LeadsTo(traces), Sessions(traces, root), [root], {})
  }

  function CostOver(traces: Traces, sessions: seq<string>): real {
    if sessions == [] then 0.0
    else CostOver(traces, sessions[..|sessions| - 1]) + SessionCost(Trace(traces, sessions[|sessions| - 1]))
  }

  function GuidelinesOver(traces: Traces, sessions: seq<string>): int {
    if sessions == [] then 0
    else GuidelinesOver(traces, sessions[..|sessions| - 1]) + SessionGuidelines(Trace(traces, sessions[|sessions| - 1]))
  }

  predicate CostedOver(traces: Traces, sessions: seq<string>) {
    exists s :: s in sessions && Costed(Trace(traces, s))
  }

  function KindsOver(traces: Traces, sessions: seq<string>): set<string> {
    set s, k | s in sessions && k in SessionKinds(Trace(traces, s)) :: k
  }

  function FailuresOver(traces: Traces, fold: string -> string, sessions: seq<string>): set<Failure> {
    set s, f | s in sessions && f in SessionFailures(fold, Trace(traces, s)) :: f
  }

  /** What the final answer itself gets wrong. */
  function PayloadFailures(payload: map<string, Value>): set<Failure> {
    var outcome, text := Get(payload, "outcome"), Get(payload, "final_text");
    (if Succeeded(outcome) then {} else {RootOutcome(outcome)})
    + (if text.Text? && Strings.Strip(text.text) != "" then {} else {MissingFinalText})
  }

  function DelegationFailure(rootEvents: seq<Event>, name: string): set<Failure> {
    match LastDelegation(rootEvents, name)
    case None => {MissingDelegation(name)}
    case Some(reported) =>
      if reported.Some? && Succeeded(Text(reported.value)) then {} else {FailedDelegation(name, reported)}
  }

  function DelegationFailures(rootEvents: seq<Event>, required: seq<string>): set<Failure> {
    set name, f | name in required && f in DelegationFailure(rootEvents, name) :: f
  }

  /** The audit of a run with a session id. */
  ghost function Audit(payload: map<string, Value>, traces: Traces, required: seq<string>, fold: string -> string,
                       root: string): Analysis
  {
    var order := ReadOrder(traces, root);
    var failures :=
      PayloadFailures(payload)
      + FailuresOver(traces, fold, order)
      + (if CostedOver(traces, order) then {} else {MissingCostUsage})
      + DelegationFailures(Trace(traces, root), required);
    Analysis(failures == {}, failures,
             if CostedOver(traces, order) then Some(CostOver(traces, order)) else None,
             GuidelinesOver(traces, order), KindsOver(traces, order))
  }

  ghost function AnalysisOf(payload: map<string, Value>, traces: Traces, required: seq<string>, fold: string -> string):
    Analysis
  {
    var session := Get(payload, "session_id");
    if !session.Text? || session.text == ""
    then Analysis(false, PayloadFailures(payload) + {MissingSessionId}, None, 0, {})
    else Audit(payload, traces, required, fold, session.text)
  }

  // ---------------------------------------------------------------- the code's loops

  /** The running totals of the audit. */
  datatype Tally = Tally(cost: real, costed: bool, guidelines: int, kinds: set<string>, failures: set<Failure>)

  /** The totals after some events of a session, from those before it. */
  ghost predicate Added(before: Tally, after: Tally, events: seq<Event>) {
    && after.cost == before.cost + SessionCost(events)
    && after.costed == (before.costed || Costed(events))
    && after.guidelines == before.guidelines + SessionGuidelines(events)
    && after.kinds == before.kinds + SessionKinds(events)
    && after.failures == before.failures + (set e, f | e in events && f in EventFailures(e) :: f)
  }

  lemma NothingAdded(t: Tally)
    ensures Added(t, t, [])
  {
  }

  lemma CutEvents(events: seq<Event>, e: Event)
    ensures (events + [e])[..|events + [e]| - 1] == events
    ensures forall x :: x in events + [e] <==> x in events || x == e
  {
  }

  lemma OneAdded(before: Tally, after: Tally, events: seq<Event>, e: Event)
    requires Added(before, after, events)
    ensures Added(before,
                  Tally(AddCost(after.cost, e), after.costed || CostOf(e).Some?, after.guidelines + GuidelinesOf(e),
                        after.kinds + KindsOf(e), after.failures + EventFailures(e)),
                  events + [e])
  {
    CutEvents(events, e);
    hide CostOf, GuidelinesOf, KindsOf, EventFailures;
    assert SessionKinds(events + [e]) == SessionKinds(events) + KindsOf(e);
    assert (set x, f | x in events + [e] && f in EventFailures(x) :: f)
           == (set x, f | x in events && f in EventFailures(x) :: f) + EventFailures(e);
    CostedMore(events, e);
  }

  lemma CostedMore(events: seq<Event>, e: Event)
    ensures Costed(events + [e]) <==> Costed(events) || CostOf(e).Some?
  {
    hide CostOf;
    CutEvents(events, e);
  }

  /** The delegations recorded from the root's tool calls so far. */
  ghost predicate Recorded(delegations: map<string, Option<string>>, events: seq<Event>, required: seq<string>) {
    forall name: string ::
      (if name in delegations then Some(delegations[name]) else None)
      == if name in required then LastDelegation(events, name) else None
  }

  lemma RecordedMore(delegations: map<string, Option<string>>, after: map<string, Option<string>>,
                     events: seq<Event>, required: seq<string>, e: Event)
    requires Recorded(delegations, events, required)
    requires after == if Get(e, "name").Text? && Get(e, "name").text in required && ReportOf(e).Some?
                      then delegations[Get(e, "name").text := DelegationOf(e, Get(e, "name").text).value]
                      else delegations
    ensures Recorded(after, events + [e], required)
  {
    CutEvents(events, e);
    hide ReportOf, CallOk;
    forall name: string
      ensures (if name in after then Some(after[name]) else None)
              == if name in required then LastDelegation(events + [e], name) else None
    {
      assert (if name in delegations then Some(delegations[name]) else None)
             == if name in required then LastDelegation(events, name) else None;
    }
  }

  lemma NothingRecorded(required: seq<string>)
    ensures Recorded(map[], [], required)
  {
  }

  lemma NothingListed()
    ensures ChildSessions([]) == [] && Payloads([]) == []
  {
  }

  lemma ListsMore(events: seq<Event>, e: Event)
    ensures ChildSessions(events + [e])
            == ChildSessions(events) + (match ChildOf(e) case Some(c) => [c] case None => [])
    ensures Payloads(events + [e])
            == Payloads(events) + (match FailurePayload(e) case Some(p) => [p] case None => [])
  {
    CutEvents(events, e);
    hide ChildOf, FailurePayload;
  }

  method ReadKinds(candidates: seq<Value>) returns (kinds: set<string>)
    ensures kinds == set c | c in candidates && c.Map? && Get(c.entries, "kind").Text? :: Get(c.entries, "kind").text
  {
    kinds := {};
    var index := 0;
    while index < |candidates|
      invariant 0 <= index <= |candidates|
      invariant kinds == set c | c in candidates[..index] && c.Map? && Get(c.entries, "kind").Text?
                         :: Get(c.entries, "kind").text
    {
      var candidate := candidates[index];
      assert candidates[..index + 1] == candidates[..index] + [candidate];
      if candidate.Map? && Get(candidate.entries, "kind").Text? {
        kinds := kinds + {Get(candidate.entries, "kind").text};
      }
      index := index + 1;
    }
    assert candidates[..index] == candidates;
  }

  /** What one event adds to the totals. */
  method ReadTotals(event: Event, t: Tally) returns (r: Tally)
    ensures r == Tally(AddCost(t.cost, event), t.costed || CostOf(event).Some?, t.guidelines + GuidelinesOf(event),
                       t.kinds + KindsOf(event), t.failures + EventFailures(event))
  {
    r := t;
    var kind := Get(event, "type");
    if kind == Text("cost_unaccounted") {
      r := r.(failures := r.failures + {CostUnaccounted});
    } else if kind == Text("usage") {
      var own := Number(Get(event, "cost_usd"));
      if own.Some? {
        r := r.(cost := r.cost + own.value, costed := true);
      }
      var retrieved := Whole(Get(event, "guidelines_retrieved"));
      if retrieved.Some? {
        r := r.(guidelines := r.guidelines + retrieved.value);
      }
    } else if kind == Text("post_run_usage") {
      var post := Number(Get(event, "cost_usd"));
      if post.Some? {
        r := r.(cost := r.cost + post.value, costed := true);
      }
    } else if kind == Text("retrieval") {
      var candidates := Get(event, "candidates");
      if candidates.List? {
        var kinds := ReadKinds(candidates.items);
        r := r.(kinds := r.kinds + kinds);
      }
    } else if kind == Text("tool_call") {
      var report := ReportOf(event);
      if report.Some? {
        var session, outcome := Get(report.value, "session_id"), Get(report.value, "outcome");
        if session.Text? && session.text != "" && !Succeeded(outcome) {
          r := r.(failures := r.failures + {NestedOutcome(outcome)});
        }
      }
    }
  }

  /** A required delegation of the root: what the sub-agent reported, if the call itself was fine. */
  method RecordDelegation(event: Event, required: seq<string>, delegations: map<string, Option<string>>)
    returns (r: map<string, Option<string>>)
    ensures r == if Get(event, "name").Text? && Get(event, "name").text in required && ReportOf(event).Some?
                 then delegations[Get(event, "name").text := DelegationOf(event, Get(event, "name").text).value]
                 else delegations
  {
    r := delegations;
    var name, report := Get(event, "name"), ReportOf(event);
    if name.Text? && name.text in required && report.Some? {
      var outcome := Get(report.value, "outcome");
      r := r[name.text := if CallOk(event) && outcome.Text? then Some(outcome.text) else None];
    }
  }

  /** Reads one session's events: totals, child sessions to read later, suspicious payloads, and for the
      root session the required delegations. */
  method ReadEvents(events: seq<Event>, isRoot: bool, required: seq<string>, tally: Tally,
                    pending: seq<string>, delegations: map<string, Option<string>>)
    returns (t: Tally, queue: seq<string>, payloads: seq<Value>, recorded: map<string, Option<string>>)
    requires isRoot ==> delegations == map[]
    ensures Added(tally, t, events)
    ensures queue == pending + ChildSessions(events)
    ensures payloads == Payloads(events)
    ensures if isRoot then Recorded(recorded, events, required) else recorded == delegations
  {
    hide *;
    t, queue, payloads, recorded := tally, pending, [], delegations;
    NothingAdded(tally);
    NothingRecorded(required);
    NothingListed();
    var index := 0;
    assert events[..0] == [];
    assert queue == pending + [];
    while index < |events|
      invariant 0 <= index <= |events|
      invariant Added(tally, t, events[..index])
      invariant queue == pending + ChildSessions(events[..index])
      invariant payloads == Payloads(events[..index])
      invariant if isRoot then Recorded(recorded, events[..index], required) else recorded == delegations
    {
      var event := events[index];
      assert events[..index + 1] == events[..index] + [event];
      OneAdded(tally, t, events[..index], event);
      ListsMore(events[..index], event);
      t := ReadTotals(event, t);
      var child, payload := ChildOf(event), FailurePayload(event);
      if child.Some? {
        queue := queue + [child.value];
      }
      if payload.Some? {
        payloads := payloads + [payload.value];
      }
      if isRoot {
        ghost var before := recorded;
        recorded := RecordDelegation(event, required, recorded);
        RecordedMore(before, recorded, events[..index], required, event);
      }
      index := index + 1;
    }
    assert events[..index] == events;
  }

  /** Searches the suspicious payloads of a session for truncation and timeouts. */
  method ReadFailureTexts(fold: string -> string, payloads: seq<Value>) returns (r: set<Failure>)
    ensures r == (if Mentions(fold, payloads, "max_tokens") || Mentions(fold, payloads, "truncat")
                  then {Truncation} else {})
                 + (if Mentions(fold, payloads, "timeout") then {Timeout} else {})
  {
    r := {};
    if Mentions(fold, payloads, "max_tokens") || Mentions(fold, payloads, "truncat") {
      r := r + {Truncation};
    }
    if Mentions(fold, payloads, "timeout") {
      r := r + {Timeout};
    }
  }

  /** The totals over the sessions read. */
  ghost predicate Audited(t: Tally, payload: map<string, Value>, traces: Traces, fold: string -> string,
                          found: seq<string>) {
    && t.cost == CostOver(traces, found)
    && t.costed == CostedOver(traces, found)
    && t.guidelines == GuidelinesOver(traces, found)
    && t.kinds == KindsOver(traces, found)
    && t.failures == PayloadFailures(payload) + FailuresOver(traces, fold, found)
  }

  lemma NothingAudited(payload: map<string, Value>, traces: Traces, fold: string -> string)
    ensures Audited(Tally(0.0, false, 0, {}, PayloadFailures(payload)), payload, traces, fold, [])
  {
  }

  lemma CutSessions(found: seq<string>, session: string)
    ensures (found + [session])[..|found + [session]| - 1] == found
    ensures forall s :: s in found + [session] <==> s in found || s == session
  {
  }

  lemma SetsMore(traces: Traces, fold: string -> string, found: seq<string>, session: string)
    ensures KindsOver(traces, found + [session]) == KindsOver(traces, found) + SessionKinds(Trace(traces, session))
    ensures FailuresOver(traces, fold, found + [session])
            == FailuresOver(traces, fold, found) + SessionFailures(fold, Trace(traces, session))
    ensures CostedOver(traces, found + [session]) <==> CostedOver(traces, found) || Costed(Trace(traces, session))
  {
    CutSessions(found, session);
    hide SessionKinds, SessionFailures, Costed, Trace;
  }

  lemma SumsMore(traces: Traces, found: seq<string>, session: string)
    ensures CostOver(traces, found + [session]) == CostOver(traces, found) + SessionCost(Trace(traces, session))
    ensures GuidelinesOver(traces, found + [session])
            == GuidelinesOver(traces, found) + SessionGuidelines(Trace(traces, session))
  {
    CutSessions(found, session);
    hide SessionCost, SessionGuidelines, Trace;
  }

  /** One more session audited. */
  lemma AuditedMore(t: Tally, after: Tally, payload: map<string, Value>, traces: Traces, fold: string -> string,
                    found: seq<string>, session: string)
    requires Audited(t, payload, traces, fold, found)
    requires after.cost == t.cost + SessionCost(Trace(traces, session))
    requires after.costed == (t.costed || Costed(Trace(traces, session)))
    requires after.guidelines == t.guidelines + SessionGuidelines(Trace(traces, session))
    requires after.kinds == t.kinds + SessionKinds(Trace(traces, session))
    requires after.failures == t.failures + SessionFailures(fold, Trace(traces, session))
    ensures Audited(after, payload, traces, fold, found + [session])
  {
    SetsMore(traces, fold, found, session);
    SumsMore(traces, found, session);
    hide CostOver, GuidelinesOver, KindsOver, FailuresOver, CostedOver, SessionCost, Costed, SessionGuidelines,
         SessionKinds, SessionFailures, Trace, PayloadFailures;
  }

  /** Reads one session, whether it has a trace or not. */
  method ReadSession(session: string, traces: Traces, fold: string -> string, isRoot: bool, required: seq<string>,
                     tally: Tally, pending: seq<string>, delegations: map<string, Option<string>>,
                     ghost payload: map<string, Value>, ghost found: seq<string>)
    returns (t: Tally, queue: seq<string>, recorded: map<string, Option<string>>)
    requires isRoot ==> delegations == map[]
    requires Audited(tally, payload, traces, fold, found)
    ensures Audited(t, payload, traces, fold, found + [session])
    ensures queue == pending + Started(traces, session)
    ensures if isRoot then Recorded(recorded, Trace(traces, session), required) else recorded == delegations
  {
    var events := Trace(traces, session);
    if events == [] {
      t, queue, recorded := tally.(failures := tally.failures + {MissingTrace}), pending, delegations;
      NothingAdded(tally);
      assert pending == pending + ChildSessions([]);
    } else {
      var payloads;
      t, queue, payloads, recorded := ReadEvents(events, isRoot, required, tally, pending, delegations);
      var more := ReadFailureTexts(fold, payloads);
      t := t.(failures := t.failures + more);
      hide Mentions;
      assert t.failures == tally.failures + SessionFailures(fold, events);
    }
    hide Trace, SessionCost, Costed, SessionGuidelines, SessionKinds, SessionFailures, Audited, Recorded;
    AuditedMore(tally, t, payload, traces, fold, found, session);
  }

  /** Reads every session reachable from the root, once. */
  method ReadSessions(traces: Traces, fold: string -> string, root: string, required: seq<string>, start: Tally,
                      ghost payload: map<string, Value>)
    returns (tally: Tally, delegations: map<string, Option<string>>)
    requires Audited(start, payload, traces, fold, [])
    ensures Audited(tally, payload, traces, fold, ReadOrder(traces, root))
    ensures Recorded(delegations, Trace(traces, root), required)
  {
    hide PayloadFailures, Visit, KeysOf, Follows, Closed, Sessions, ReadOrder, Audited, Recorded, Started, Trace;
    var pending := [root];
    var seen: set<string> := {};
    delegations := map[];
    tally := start;
    ghost var found: seq<string> := [];
    ghost var succ, next, all := StartedBy(traces), LeadsTo(traces), Sessions(traces, root);
    ghost var order := ReadOrder(traces, root);
    SessionsFit(traces, root);
    OrderIs(traces, root);
    while pending != []
      invariant KeysOf(pending, Itself()) <= all
      invariant order == found + Visit(succ, Itself(), next, all, pending, seen)
      invariant Audited(tally, payload, traces, fold, found)
      invariant if root in seen then Recorded(delegations, Trace(traces, root), required)
                else delegations == map[] && pending != [] && pending[0] == root
      decreases |all - seen|, |pending|
    {
      var session := pending[0];
      if session in seen {
        VisitSeen(succ, Itself(), next, all, pending, seen);
        pending := pending[1..];
      } else {
        VisitNew(succ, Itself(), next, all, pending, seen);
        Fewer(all, seen, session);
        Regroup(found, session, Visit(succ, Itself(), next, all, pending[1..] + succ(session), seen + {session}));
        seen := seen + {session};
        tally, pending, delegations :=
          ReadSession(session, traces, fold, session == root, required, tally, pending[1..], delegations,
                      payload, found);
        found := found + [session];
      }
    }
    NothingPending(traces, root, seen);
    assert found + [] == found;
  }

  /** Validates the delegation outcomes of a run and sums what its sessions cost. */
  method AnalyzeRun(payload: map<string, Value>, traces: Traces, required: seq<string>, fold: string -> string)
    returns (r: Analysis)
    ensures r == AnalysisOf(payload, traces, required, fold)
  {
    hide PayloadFailures, ReadOrder, Audited, Recorded, Trace, Audit;
    var sessionId := Get(payload, "session_id");
    var failures := CheckPayload(payload);
    if !sessionId.Text? || sessionId.text == "" {
      return Analysis(false, failures + {MissingSessionId}, None, 0, {});
    }
    NothingAudited(payload, traces, fold);
    var tally, delegations :=
      ReadSessions(traces, fold, sessionId.text, required, Tally(0.0, false, 0, {}, failures), payload);
    r := Verdict(tally, delegations, required, payload, traces, fold, sessionId.text);
  }

  lemma OrderIs(traces: Traces, root: string)
    requires Follows(StartedBy(traces), Itself(), LeadsTo(traces))
    requires Closed(LeadsTo(traces), Sessions(traces, root))
    requires KeysOf([root], Itself()) <= Sessions(traces, root)
    ensures ReadOrder(traces, root)
            == [] + Visit(StartedBy(traces), Itself(), LeadsTo(traces), Sessions(traces, root), [root], {})
  {
    hide Visit, Sessions, Follows, Closed, StartedBy, LeadsTo;
  }

  lemma Regroup(found: seq<string>, session: string, rest: seq<string>)
    ensures found + ([session] + rest) == found + [session] + rest
  {
  }

  lemma NothingPending(traces: Traces, root: string, seen: set<string>)
    requires Follows(StartedBy(traces), Itself(), LeadsTo(traces))
    requires Closed(LeadsTo(traces), Sessions(traces, root))
    requires KeysOf([], Itself()) <= Sessions(traces, root)
    ensures Visit(StartedBy(traces), Itself(), LeadsTo(traces), Sessions(traces, root), [], seen) == []
  {
  }

  method CheckPayload(payload: map<string, Value>) returns (failures: set<Failure>)
    ensures failures == PayloadFailures(payload)
  {
    failures := {};
    var outcome, finalText := Get(payload, "outcome"), Get(payload, "final_text");
    if !Succeeded(outcome) {
      failures := failures + {RootOutcome(outcome)};
    }
    if !finalText.Text? || Strings.Strip(finalText.text) == "" {
      failures := failures + {MissingFinalText};
    }
  }

  method CheckDelegations(delegations: map<string, Option<string>>, required: seq<string>, ghost events: seq<Event>)
    returns (failures: set<Failure>)
    requires Recorded(delegations, events, required)
    ensures failures == DelegationFailures(events, required)
  {
    failures := {};
    var index := 0;
    while index < |required|
      invariant 0 <= index <= |required|
      invariant failures == DelegationFailures(events, required[..index])
    {
      var name := required[index];
      RequiredMore(events, required, index);
      hide LastDelegation, DelegationFailures;
      assert (if name in delegations then Some(delegations[name]) else None) == LastDelegation(events, name);
      if name !in delegations {
        failures := failures + {MissingDelegation(name)};
      } else if delegations[name].None? || !Succeeded(Text(delegations[name].value)) {
        failures := failures + {FailedDelegation(name, delegations[name])};
      }
      index := index + 1;
    }
    assert required[..index] == required;
  }

  /** The last checks, and the result. */
  method Verdict(tally: Tally, delegations: map<string, Option<string>>, required: seq<string>,
                 ghost payload: map<string, Value>, ghost traces: Traces, ghost fold: string -> string,
                 ghost root: string)
    returns (r: Analysis)
    requires Audited(tally, payload, traces, fold, ReadOrder(traces, root))
    requires Recorded(delegations, Trace(traces, root), required)
    ensures r == Audit(payload, traces, required, fold, root)
  {
    hide Recorded, Trace, ReadOrder, PayloadFailures, FailuresOver, CostedOver, KindsOver, CostOver, GuidelinesOver,
         DelegationFailures;
    var failures := tally.failures + (if tally.costed then {} else {MissingCostUsage});
    var unmet := CheckDelegations(delegations, required, Trace(traces, root));
    failures := failures + unmet;
    r := Analysis(failures == {}, failures, if tally.costed then Some(tally.cost) else None, tally.guidelines,
                  tally.kinds);
  }

  lemma RequiredMore(events: seq<Event>, required: seq<string>, index: nat)
    requires index < |required|
    ensures DelegationFailures(events, required[..index + 1])
            == DelegationFailures(events, required[..index]) + DelegationFailure(events, required[index])
  {
    hide DelegationFailure;
    assert required[..index + 1] == required[..index] + [required[index]];
  }

  // ---------------------------------------------------------------- what the audit means

  /** `session` is reached over the child sessions reported in tool-call results. */
  ghost predicate Reachable(traces: Traces, root: string, session: string) {
    Reaches(LeadsTo(traces), root, session)
  }

  /** However the sessions refer to each other, each reachable one is read exactly once; so the total is
      the sum over the reachable sessions, each counted once. */
  lemma EachSessionOnce(traces: Traces, root: string)
    ensures forall i, j :: 0 <= i < j < |ReadOrder(traces, root)| ==>
              ReadOrder(traces, root)[i] != ReadOrder(traces, root)[j]
    ensures forall s :: s in ReadOrder(traces, root) <==> Reachable(traces, root, s)
  {
    SessionsFit(traces, root);
    var order := ReadOrder(traces, root);
    VisitsOnce(StartedBy(traces), Itself(), LeadsTo(traces), Sessions(traces, root), [root], {});
    forall i, j | 0 <= i < j < |order|
      ensures order[i] != order[j]
    {
      assert Itself()(order[i]) != Itself()(order[j]);
    }
    forall s: string
      ensures s in order <==> Reachable(traces, root, s)
    {
      VisitsExactly(StartedBy(traces), Itself(), LeadsTo(traces), Sessions(traces, root), root, s);
      assert s in KeysOf(order, Itself()) <==> exists x :: x in order && Itself()(x) == s;
    }
  }

  /** A child session the event reports on succeeded. */
  predicate NestedOk(e: Event) {
    ChildOf(e).Some? ==> Succeeded(Get(ReportOf(e).value, "outcome"))
  }

  /** Nothing is wrong in one session. */
  predicate CleanSession(fold: string -> string, events: seq<Event>) {
    && events != []
    && (forall e :: e in events ==> !HasType(e, "cost_unaccounted"))
    && (forall e :: e in events ==> NestedOk(e))
    && !Mentions(fold, Payloads(events), "max_tokens")
    && !Mentions(fold, Payloads(events), "truncat")
    && !Mentions(fold, Payloads(events), "timeout")
  }

  lemma CleanSessionExact(fold: string -> string, events: seq<Event>)
    ensures CleanSession(fold, events) <==> SessionFailures(fold, events) == {}
  {
    hide Mentions, Payloads, EventFailures, NestedOk;
    if events != [] {
      var own := set e, f | e in events && f in EventFailures(e) :: f;
      forall e | e in events ensures EventFailures(e) <= own {
      }
      forall e | e in events
        ensures EventFailures(e) == {}
                <==> !HasType(e, "cost_unaccounted") && NestedOk(e)
      {
        EventClean(e);
      }
    }
  }

  lemma EventClean(e: Event)
    ensures EventFailures(e) == {}
            <==> !HasType(e, "cost_unaccounted") && NestedOk(e)
  {
    hide ReportOf, ChildOf;
    if HasType(e, "cost_unaccounted") {
      assert CostUnaccounted in EventFailures(e);
    }
  }

  predicate DelegationMet(rootEvents: seq<Event>, name: string) {
    match LastDelegation(rootEvents, name)
    case Some(Some(outcome)) => Succeeded(Text(outcome))
    case _ => false
  }

  lemma PayloadClean(payload: map<string, Value>)
    ensures PayloadFailures(payload) == {}
            <==> Succeeded(Get(payload, "outcome")) && Get(payload, "final_text").Text?
                 && Strings.Strip(Get(payload, "final_text").text) != ""
  {
    hide Strings.Strip;
    var outcome := Get(payload, "outcome");
    if !Succeeded(outcome) {
      assert RootOutcome(outcome) in PayloadFailures(payload);
    }
    if !(Get(payload, "final_text").Text? && Strings.Strip(Get(payload, "final_text").text) != "") {
      assert MissingFinalText in PayloadFailures(payload);
    }
  }

  lemma OverClean(traces: Traces, fold: string -> string, sessions: seq<string>)
    ensures FailuresOver(traces, fold, sessions) == {}
            <==> forall s :: s in sessions ==> CleanSession(fold, Trace(traces, s))
  {
    forall s: string
      ensures CleanSession(fold, Trace(traces, s)) <==> SessionFailures(fold, Trace(traces, s)) == {}
    {
      CleanSessionExact(fold, Trace(traces, s));
    }
    hide CleanSession, SessionFailures, Trace;
    var all := FailuresOver(traces, fold, sessions);
    forall s | s in sessions ensures SessionFailures(fold, Trace(traces, s)) <= all {
    }
  }

  lemma DelegationsClean(events: seq<Event>, required: seq<string>)
    ensures DelegationFailures(events, required) == {}
            <==> forall name :: name in required ==> DelegationMet(events, name)
  {
    hide LastDelegation;
    forall name: string ensures DelegationMet(events, name) <==> DelegationFailure(events, name) == {} {
    }
    var all := DelegationFailures(events, required);
    hide DelegationFailure, DelegationMet;
    forall name | name in required ensures DelegationFailure(events, name) <= all {
    }
  }

  /** A run is called complete exactly when its own answer is fine, every reachable session has a trace in
      which nothing failed and every child session succeeded, some cost was recorded, and every
      required delegation of the root ended in success. */
  lemma CompleteExactly(payload: map<string, Value>, traces: Traces, required: seq<string>, fold: string -> string)
    ensures var session := Get(payload, "session_id");
            AnalysisOf(payload, traces, required, fold).complete
            <==> && session.Text? && session.text != ""
                 && Succeeded(Get(payload, "outcome"))
                 && Get(payload, "final_text").Text? && Strings.Strip(Get(payload, "final_text").text) != ""
                 && (forall s :: Reachable(traces, session.text, s) ==> CleanSession(fold, Trace(traces, s)))
                 && (exists s :: Reachable(traces, session.text, s) && Costed(Trace(traces, s)))
                 && (forall name :: name in required ==> DelegationMet(Trace(traces, session.text), name))
  {
    var session := Get(payload, "session_id");
    if session.Text? && session.text != "" {
      var order := ReadOrder(traces, session.text);
      EachSessionOnce(traces, session.text);
      PayloadClean(payload);
      OverClean(traces, fold, order);
      DelegationsClean(Trace(traces, session.text), required);
      hide Succeeded, Strings.Strip, ReadOrder, Reachable, CleanSession, Costed, Trace, DelegationMet, PayloadFailures,
           FailuresOver, DelegationFailures, KindsOver, CostOver, GuidelinesOver;
    }
  }
}
