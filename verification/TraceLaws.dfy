/** What an audit says, in terms of the trace files alone: the total is the sum of the costs written in them,
    and each failure, kind and count is there for a stated reason. */
module TraceLaws {
  import opened Options
  import opened ConfigValue
  import opened Collections
  import opened BreadthFirst
  import opened TraceAudit
  import Strings = Text

  // ---------------------------------------------------------------- what an event says

  predicate IsType(e: Event, name: string) {
    "type" in e && e["type"] == Text(name)
  }

  /** `v` is the number `x`; Python's booleans are numbers. */
  predicate Numeric(v: Value, x: real) {
    || v == Float(x)
    || (v.Int? && v.number as real == x)
    || (v == Bool(true) && x == 1.0)
    || (v == Bool(false) && x == 0.0)
  }

  /** The event costs `x`: its session's own usage, or what was used after the run. */
  predicate Charges(e: Event, x: real) {
    (IsType(e, "usage") || IsType(e, "post_run_usage")) && "cost_usd" in e && Numeric(e["cost_usd"], x)
  }

  /** The event says that `x` guidelines were retrieved. */
  predicate Retrieves(e: Event, x: real) {
    && IsType(e, "usage") && "guidelines_retrieved" in e
    && !e["guidelines_retrieved"].Float? && Numeric(e["guidelines_retrieved"], x)
  }

  predicate Offers(e: Event, kind: string) {
    && IsType(e, "retrieval") && "candidates" in e && e["candidates"].List?
    && exists c :: c in e["candidates"].items && c.Map? && "kind" in c.entries && c.entries["kind"] == Text(kind)
  }

  /** The event is a tool call that returned a mapping. */
  predicate Returns(e: Event) {
    IsType(e, "tool_call") && "result" in e && e["result"].Map?
  }

  /** The tool call returned a sub-agent's report. */
  predicate Brings(e: Event) {
    Returns(e) && "result" in e["result"].entries && e["result"].entries["result"].Map?
  }

  /** What the report says under a key, null if nothing. */
  function Reported(e: Event, key: string): Value
    requires Brings(e)
  {
    var report := e["result"].entries["result"].entries;
    if key in report then report[key] else Null
  }

  /** The tool call ran a sub-agent in this session. */
  predicate Starts(e: Event, session: string) {
    Brings(e) && Reported(e, "session_id") == Text(session) && session != ""
  }

  predicate Successful(outcome: Value) {
    outcome == Text("success") || outcome == Text("success_with_recovery")
  }

  predicate InTrace(traces: Traces, session: string, e: Event) {
    session in traces && e in traces[session]
  }

  // ---------------------------------------------------------------- which sessions are read

  ghost predicate Leads(traces: Traces, session: string, child: string) {
    exists e :: InTrace(traces, session, e) && Starts(e, child)
  }

  ghost predicate Linked(traces: Traces, chain: seq<string>) {
    forall i :: 0 < i < |chain| ==> Leads(traces, chain[i - 1], chain[i])
  }

  /** Sessions started by the root's tool calls, or by theirs, and so on. */
  ghost predicate ReadFrom(traces: Traces, root: string, session: string) {
    exists chain: seq<string> ::
      chain != [] && chain[0] == root && chain[|chain| - 1] == session && Linked(traces, chain)
  }

  lemma StartsIs(e: Event, session: string)
    ensures Starts(e, session) <==> ChildOf(e) == Some(session)
  {
  }

  lemma {:induction false} StartedIs(events: seq<Event>, session: string)
    ensures session in ChildSessions(events) <==> exists e :: e in events && Starts(e, session)
  {
    hide ChildOf, Starts;
    if events != [] {
      var last := events[|events| - 1];
      assert events == events[..|events| - 1] + [last];
      StartsIs(last, session);
      StartedIs(events[..|events| - 1], session);
    }
  }

  lemma LeadsIs(traces: Traces, session: string, child: string)
    ensures child in LeadsTo(traces)(session) <==> Leads(traces, session, child)
  {
    hide Starts, ChildSessions;
    StartedIs(Trace(traces, session), child);
  }

  lemma LinkedIs(traces: Traces, chain: seq<string>)
    ensures chain != [] ==> (Linked(traces, chain) <==> Chain(LeadsTo(traces), chain))
  {
    hide Leads;
    forall i | 0 < i < |chain|
      ensures chain[i] in LeadsTo(traces)(chain[i - 1]) <==> Leads(traces, chain[i - 1], chain[i])
    {
      LeadsIs(traces, chain[i - 1], chain[i]);
    }
    hide LeadsTo;
  }

  lemma ReadIs(traces: Traces, root: string, session: string)
    ensures ReadFrom(traces, root, session) <==> Reachable(traces, root, session)
  {
    hide LeadsTo, Linked, Chain;
    forall chain: seq<string>
      ensures chain != [] ==> (Linked(traces, chain) <==> Chain(LeadsTo(traces), chain))
    {
      LinkedIs(traces, chain);
    }
    if ReadFrom(traces, root, session) {
      var chain: seq<string> :|
        chain != [] && chain[0] == root && chain[|chain| - 1] == session && Linked(traces, chain);
      assert Chain(LeadsTo(traces), chain);
    }
    NoEmptyChain(traces);
  }

  lemma NoEmptyChain(traces: Traces)
    ensures !Chain(LeadsTo(traces), [])
  {
  }

  // ---------------------------------------------------------------- sums over the traces

  /** One amount, and where it is written: the event at a place of a session's trace. */
  datatype Entry = Entry(session: string, place: nat, amount: real)

  /** The entries are all the amounts that `owes` finds in the sessions read, each one once, in any order. */
  ghost predicate IsLedger(traces: Traces, root: string, owes: (Event, real) -> bool, entries: seq<Entry>) {
    && Distinct(entries)
    && forall s: string, i: nat, x: real ::
         Entry(s, i, x) in entries
         <==> ReadFrom(traces, root, s) && s in traces && i < |traces[s]| && owes(traces[s][i], x)
  }

  function Sum(entries: seq<Entry>): real {
    if entries == [] then 0.0 else Sum(entries[..|entries| - 1]) + entries[|entries| - 1].amount
  }

  lemma {:induction false} SumWithout(entries: seq<Entry>, j: nat)
    requires j < |entries|
    ensures Sum(entries) == Sum(entries[..j] + entries[j + 1..]) + entries[j].amount
  {
    var last := |entries| - 1;
    if j == last {
      assert entries[..j] + entries[j + 1..] == entries[..last];
    } else {
      var less := entries[..j] + entries[j + 1..];
      SumWithout(entries[..last], j);
      assert less[..|less| - 1] == entries[..last][..j] + entries[..last][j + 1..];
      assert less[|less| - 1] == entries[last];
    }
  }

  lemma DistinctWithout(entries: seq<Entry>, j: nat)
    requires Distinct(entries) && j < |entries|
    ensures var less := entries[..j] + entries[j + 1..];
            Distinct(less) && forall e :: e in less <==> e in entries && e != entries[j]
  {
    var less := entries[..j] + entries[j + 1..];
    assert forall i :: 0 <= i < |less| ==> less[i] == entries[if i < j then i else i + 1];
    forall e | e in entries && e != entries[j] ensures e in less {
      var i :| 0 <= i < |entries| && entries[i] == e;
      assert less[if i < j then i else i - 1] == e;
    }
  }

  lemma FirstInside<T>(s: seq<T>)
    ensures s != [] ==> s[0] in s
  {
  }

  /** The order of the entries does not matter. */
  lemma {:induction false} SameSum(a: seq<Entry>, b: seq<Entry>)
    requires Distinct(a) && Distinct(b) && forall e :: e in a <==> e in b
    ensures Sum(a) == Sum(b)
  {
    if a == [] {
      FirstInside(b);
    } else {
      var last := |a| - 1;
      assert a[last] in b;
      var j :| 0 <= j < |b| && b[j] == a[last];
      DistinctWithout(b, j);
      DistinctWithout(a, last);
      assert a[..last] + a[last + 1..] == a[..last];
      SumWithout(b, j);
      SameSum(a[..last], b[..j] + b[j + 1..]);
    }
  }

  /** What `f` finds in one trace, in order. */
  function EntriesIn(session: string, events: seq<Event>, f: Event -> Option<real>): seq<Entry> {
    if events == [] then []
    else
      var k := |events| - 1;
      EntriesIn(session, events[..k], f)
      + (match f(events[k]) case Some(x) => [Entry(session, k, x)] case None => [])
  }

  lemma {:induction false} EntriesInAre(session: string, events: seq<Event>, f: Event -> Option<real>)
    ensures Distinct(EntriesIn(session, events, f))
    ensures forall e :: e in EntriesIn(session, events, f)
                        <==> e.session == session && e.place < |events| && f(events[e.place]) == Some(e.amount)
  {
    if events != [] {
      var k := |events| - 1;
      EntriesInAre(session, events[..k], f);
      var before, all := EntriesIn(session, events[..k], f), EntriesIn(session, events, f);
      forall i | 0 <= i < |before| ensures all[i] == before[i] && before[i] in before {
      }
      forall e
        ensures e in all <==> e.session == session && e.place < |events| && f(events[e.place]) == Some(e.amount)
      {
        assert e in all <==> e in before || (e == Entry(session, k, e.amount) && f(events[k]) == Some(e.amount));
      }
    }
  }

  function EntriesOver(traces: Traces, sessions: seq<string>, f: Event -> Option<real>): seq<Entry> {
    if sessions == [] then []
    else
      var k := |sessions| - 1;
      EntriesOver(traces, sessions[..k], f) + EntriesIn(sessions[k], Trace(traces, sessions[k]), f)
  }

  lemma DistinctJoin(a: seq<Entry>, b: seq<Entry>)
    requires Distinct(a) && Distinct(b) && forall e :: e in a ==> e !in b
    ensures Distinct(a + b)
  {
    var s := a + b;
    forall i, j | 0 <= i < j < |s| ensures s[i] != s[j] {
      assert i < |a| ==> s[i] in a;
      assert j >= |a| ==> s[j] in b;
    }
  }

  lemma {:induction false} EntriesOverAre(traces: Traces, sessions: seq<string>, f: Event -> Option<real>)
    requires Distinct(sessions)
    ensures Distinct(EntriesOver(traces, sessions, f))
    ensures forall e :: e in EntriesOver(traces, sessions, f)
                        <==> e.session in sessions && e.place < |Trace(traces, e.session)|
                             && f(Trace(traces, e.session)[e.place]) == Some(e.amount)
  {
    hide Trace, EntriesIn;
    if sessions != [] {
      var k := |sessions| - 1;
      EntriesOverAre(traces, sessions[..k], f);
      EntriesInAre(sessions[k], Trace(traces, sessions[k]), f);
      var before, last := EntriesOver(traces, sessions[..k], f), EntriesIn(sessions[k], Trace(traces, sessions[k]), f);
      assert forall i :: 0 <= i < k ==> sessions[..k][i] == sessions[i];
      assert forall s :: s in sessions <==> s in sessions[..k] || s == sessions[k];
      DistinctJoin(before, last);
    }
  }

  lemma {:induction false} SumJoin(a: seq<Entry>, b: seq<Entry>)
    ensures Sum(a + b) == Sum(a) + Sum(b)
  {
    if b == [] {
      assert a + b == a;
    } else {
      var k := |b| - 1;
      assert (a + b)[..|a + b| - 1] == a + b[..k];
      SumJoin(a, b[..k]);
    }
  }

  /** The ledger of one kind of amount, in reading order. */
  lemma LedgerOf(traces: Traces, root: string, owes: (Event, real) -> bool, f: Event -> Option<real>)
    returns (entries: seq<Entry>)
    requires forall e, x :: owes(e, x) <==> f(e) == Some(x)
    ensures IsLedger(traces, root, owes, entries)
    ensures entries == EntriesOver(traces, ReadOrder(traces, root), f)
  {
    var order := ReadOrder(traces, root);
    EachSessionOnce(traces, root);
    EntriesOverAre(traces, order, f);
    entries := EntriesOver(traces, order, f);
    hide EntriesOver, ReadOrder, Reachable, ReadFrom;
    forall s: string, i: nat, x: real
      ensures Entry(s, i, x) in entries
              <==> ReadFrom(traces, root, s) && s in traces && i < |traces[s]| && owes(traces[s][i], x)
    {
      ReadIs(traces, root, s);
    }
  }

  /** Every ledger has the sum of that one. */
  lemma LedgerSum(traces: Traces, root: string, owes: (Event, real) -> bool, f: Event -> Option<real>,
                  entries: seq<Entry>)
    requires forall e, x :: owes(e, x) <==> f(e) == Some(x)
    requires IsLedger(traces, root, owes, entries)
    ensures Sum(entries) == Sum(EntriesOver(traces, ReadOrder(traces, root), f))
    ensures entries == [] <==> EntriesOver(traces, ReadOrder(traces, root), f) == []
  {
    var own := LedgerOf(traces, root, owes, f);
    forall e ensures e in own <==> e in entries {
      assert e == Entry(e.session, e.place, e.amount);
    }
    hide EntriesOver, ReadOrder, ReadFrom;
    if own != [] { assert own[0] in own; }
    if entries != [] { assert entries[0] in entries; }
    SameSum(own, entries);
  }

  // ---------------------------------------------------------------- the total cost

  function CostFinder(): Event -> Option<real> {
    (e: Event) => CostOf(e)
  }

  lemma ChargesAre(e: Event, x: real)
    ensures Charges(e, x) <==> CostOf(e) == Some(x)
  {
  }

  lemma {:induction false} SessionSum(session: string, events: seq<Event>)
    ensures Sum(EntriesIn(session, events, CostFinder())) == SessionCost(events)
    ensures EntriesIn(session, events, CostFinder()) != [] <==> Costed(events)
  {
    hide CostOf;
    if events != [] {
      var k := |events| - 1;
      SessionSum(session, events[..k]);
      assert events == events[..k] + [events[k]];
      var before := EntriesIn(session, events[..k], CostFinder());
      if CostOf(events[k]).Some? {
        SumJoin(before, [Entry(session, k, CostOf(events[k]).value)]);
      } else {
        assert before + [] == before;
      }
    }
  }

  lemma {:induction false} RunSum(traces: Traces, sessions: seq<string>)
    ensures Sum(EntriesOver(traces, sessions, CostFinder())) == CostOver(traces, sessions)
    ensures EntriesOver(traces, sessions, CostFinder()) != [] <==> CostedOver(traces, sessions)
  {
    hide SessionCost, Costed, Trace, EntriesIn;
    if sessions != [] {
      var k := |sessions| - 1;
      assert sessions == sessions[..k] + [sessions[k]];
      RunSum(traces, sessions[..k]);
      SessionSum(sessions[k], Trace(traces, sessions[k]));
      SumJoin(EntriesOver(traces, sessions[..k], CostFinder()),
              EntriesIn(sessions[k], Trace(traces, sessions[k]), CostFinder()));
    }
  }

  /** The run has a session id, under which its root trace is kept. */
  predicate RunAs(payload: map<string, Value>, root: string) {
    "session_id" in payload && payload["session_id"] == Text(root) && root != ""
  }

  /** The amounts of a run are finitely many. */
  lemma CostLedger(traces: Traces, root: string) returns (entries: seq<Entry>)
    ensures IsLedger(traces, root, Charges, entries)
  {
    forall e, x ensures Charges(e, x) <==> CostFinder()(e) == Some(x) {
      ChargesAre(e, x);
    }
    hide Charges, CostFinder;
    entries := LedgerOf(traces, root, Charges, CostFinder());
  }

  /** The total is the sum of every cost written in the trace of a session read, each counted once; without
      any there is no total. */
  lemma TotalIsSum(payload: map<string, Value>, traces: Traces, required: seq<string>, fold: string -> string,
                   root: string, entries: seq<Entry>)
    requires RunAs(payload, root) && IsLedger(traces, root, Charges, entries)
    ensures AnalysisOf(payload, traces, required, fold).totalCost
            == if entries == [] then None else Some(Sum(entries))
  {
    forall e, x ensures Charges(e, x) <==> CostFinder()(e) == Some(x) {
      ChargesAre(e, x);
    }
    hide Charges, CostFinder, IsLedger, Sum, EntriesOver, CostOver, CostedOver, ReadOrder;
    LedgerSum(traces, root, Charges, CostFinder(), entries);
    RunSum(traces, ReadOrder(traces, root));
  }

  // ---------------------------------------------------------------- guidelines and kinds

  function GuidelineFinder(): Event -> Option<real> {
    (e: Event) =>
      match Whole(Get(e, "guidelines_retrieved"))
      case Some(n) => if HasType(e, "usage") then Some(n as real) else None
      case None => None
  }

  lemma RetrievesAre(e: Event, x: real)
    ensures Retrieves(e, x) <==> GuidelineFinder()(e) == Some(x)
  {
  }

  lemma {:induction false} SessionGuidelinesSum(session: string, events: seq<Event>)
    ensures Sum(EntriesIn(session, events, GuidelineFinder())) == SessionGuidelines(events) as real
  {
    if events != [] {
      var k := |events| - 1;
      SessionGuidelinesSum(session, events[..k]);
      var before, found := EntriesIn(session, events[..k], GuidelineFinder()), GuidelineFinder()(events[k]);
      assert found == if GuidelinesOf(events[k]) == 0 && found.None? then None
                      else Some(GuidelinesOf(events[k]) as real);
      hide GuidelineFinder, GuidelinesOf;
      if found.Some? {
        SumJoin(before, [Entry(session, k, found.value)]);
      } else {
        assert before + [] == before;
      }
    }
  }

  lemma {:induction false} RunGuidelines(traces: Traces, sessions: seq<string>)
    ensures Sum(EntriesOver(traces, sessions, GuidelineFinder())) == GuidelinesOver(traces, sessions) as real
  {
    hide SessionGuidelines, Trace, EntriesIn;
    if sessions != [] {
      var k := |sessions| - 1;
      RunGuidelines(traces, sessions[..k]);
      SessionGuidelinesSum(sessions[k], Trace(traces, sessions[k]));
      SumJoin(EntriesOver(traces, sessions[..k], GuidelineFinder()),
              EntriesIn(sessions[k], Trace(traces, sessions[k]), GuidelineFinder()));
    }
  }

  /** The guidelines are summed up likewise. */
  lemma GuidelinesAreSum(payload: map<string, Value>, traces: Traces, required: seq<string>, fold: string -> string,
                         root: string, entries: seq<Entry>)
    requires RunAs(payload, root) && IsLedger(traces, root, Retrieves, entries)
    ensures AnalysisOf(payload, traces, required, fold).guidelines as real == Sum(entries)
  {
    forall e, x ensures Retrieves(e, x) <==> GuidelineFinder()(e) == Some(x) {
      RetrievesAre(e, x);
    }
    hide Retrieves, GuidelineFinder, IsLedger, Sum, EntriesOver, GuidelinesOver, ReadOrder;
    LedgerSum(traces, root, Retrieves, GuidelineFinder(), entries);
    RunGuidelines(traces, ReadOrder(traces, root));
  }

  lemma OffersAre(e: Event, kind: string)
    ensures Offers(e, kind) <==> kind in KindsOf(e)
  {
  }

  lemma KindsOverAre(traces: Traces, sessions: seq<string>, kind: string)
    ensures kind in KindsOver(traces, sessions)
            <==> exists s, e :: s in sessions && InTrace(traces, s, e) && kind in KindsOf(e)
  {
    hide KindsOf;
    if s, e :| s in sessions && InTrace(traces, s, e) && kind in KindsOf(e) {
      assert kind in SessionKinds(Trace(traces, s));
    }
    if kind in KindsOver(traces, sessions) {
      var s :| s in sessions && kind in SessionKinds(Trace(traces, s));
      var e :| e in Trace(traces, s) && kind in KindsOf(e);
      assert InTrace(traces, s, e);
    }
  }

  /** The sessions read are those started from the root. */
  lemma OrderReads(traces: Traces, root: string)
    ensures forall s: string :: s in ReadOrder(traces, root) <==> ReadFrom(traces, root, s)
  {
    EachSessionOnce(traces, root);
    hide ReadOrder, ReadFrom, Reachable;
    forall s: string ensures ReadFrom(traces, root, s) <==> s in ReadOrder(traces, root) {
      ReadIs(traces, root, s);
    }
  }

  /** The kinds are those of the candidates offered in the sessions read. */
  lemma KindsExactly(payload: map<string, Value>, traces: Traces, required: seq<string>, fold: string -> string,
                     root: string, kind: string)
    requires RunAs(payload, root)
    ensures kind in AnalysisOf(payload, traces, required, fold).kinds
            <==> exists s, e :: ReadFrom(traces, root, s) && InTrace(traces, s, e) && Offers(e, kind)
  {
    hide *;
    AuditIs(payload, traces, required, fold, root);
    OrderReads(traces, root);
    forall e: Event ensures Offers(e, kind) <==> kind in KindsOf(e) {
      OffersAre(e, kind);
    }
    KindsOverAre(traces, ReadOrder(traces, root), kind);
  }

  /** The parts of a run's audit. */
  lemma AuditIs(payload: map<string, Value>, traces: Traces, required: seq<string>, fold: string -> string,
                root: string)
    requires RunAs(payload, root)
    ensures var r, order := AnalysisOf(payload, traces, required, fold), ReadOrder(traces, root);
            && r.kinds == KindsOver(traces, order)
            && r.failures == PayloadFailures(payload) + FailuresOver(traces, fold, order)
                             + (if CostedOver(traces, order) then {} else {MissingCostUsage})
                             + DelegationFailures(Trace(traces, root), required)
            && (r.complete <==> r.failures == {})
  {
    hide KindsOver, PayloadFailures, FailuresOver, CostedOver, DelegationFailures, ReadOrder, Trace, GuidelinesOver,
         CostOver;
  }

  // ---------------------------------------------------------------- suspicious texts

  datatype Step = Key(key: string) | Place(place: nat)

  /** The value a path of mapping keys and list places leads to. */
  function Follow(v: Value, path: seq<Step>): Option<Value>
    decreases |path|
  {
    if path == [] then Some(v)
    else
      match path[0]
      case Key(k) => if v.Map? && k in v.entries then Follow(v.entries[k], path[1..]) else None
      case Place(i) => if v.List? && i < |v.items| then Follow(v.items[i], path[1..]) else None
  }

  /** The last mapping key on a path; list places do not count. */
  function LastKey(path: seq<Step>, first: string): string {
    if path == [] then first
    else LastKey(path[1..], if path[0].Key? then path[0].key else first)
  }

  /** The text stands somewhere in the value, nearest below one of the four keys. */
  ghost predicate Tells(v: Value, first: string, text: string) {
    exists path: seq<Step> ::
      Follow(v, path) == Some(Text(text)) && LastKey(path, first) in {"error", "reason", "stderr", "stderr_tail"}
  }

  lemma TellsStep(v: Value, first: string, step: Step, inner: Value, text: string)
    requires Follow(v, [step]) == Some(inner)
    requires Tells(inner, if step.Key? then step.key else first, text)
    ensures Tells(v, first, text)
  {
    var next := if step.Key? then step.key else first;
    var path: seq<Step> :|
      Follow(inner, path) == Some(Text(text)) && LastKey(path, next) in {"error", "reason", "stderr", "stderr_tail"};
    assert ([step] + path)[1..] == path;
    assert [step][1..] == [];
    assert Follow(v, [step] + path) == Some(Text(text));
    assert LastKey([step] + path, first) == LastKey(path, next);
  }

  lemma {:induction false} FoundTells(v: Value, key: string, text: string)
    requires text in FailureTexts(v, key)
    ensures Tells(v, key, text)
    decreases v
  {
    match v
    case Map(m) =>
      var k :| k in m && text in FailureTexts(m[k], k);
      FoundTells(m[k], k, text);
      assert [Key(k)][1..] == [];
      TellsStep(v, key, Key(k), m[k], text);
    case List(l) =>
      var i :| 0 <= i < |l| && text in FailureTexts(l[i], key);
      FoundTells(l[i], key, text);
      assert [Place(i)][1..] == [];
      TellsStep(v, key, Place(i), l[i], text);
    case Text(t) =>
      assert Follow(v, []) == Some(Text(text)) && LastKey([], key) == key;
    case _ =>
  }

  lemma {:induction false} ToldFound(v: Value, key: string, text: string, path: seq<Step>)
    requires Follow(v, path) == Some(Text(text)) && LastKey(path, key) in {"error", "reason", "stderr", "stderr_tail"}
    ensures text in FailureTexts(v, key)
    decreases |path|
  {
    if path != [] {
      match path[0]
      case Key(k) => ToldFound(v.entries[k], k, text, path[1..]);
      case Place(i) => ToldFound(v.items[i], key, text, path[1..]);
    }
  }

  lemma TextsAre(v: Value, key: string, text: string)
    ensures text in FailureTexts(v, key) <==> Tells(v, key, text)
  {
    if text in FailureTexts(v, key) {
      FoundTells(v, key, text);
    }
    if Tells(v, key, text) {
      var path: seq<Step> :|
        Follow(v, path) == Some(Text(text)) && LastKey(path, key) in {"error", "reason", "stderr", "stderr_tail"};
      ToldFound(v, key, text, path);
    }
  }

  /** What is searched of an event: a failure event itself, or the result of a call that was not fine. */
  predicate Suspect(e: Event, v: Value) {
    || ((IsType(e, "cost_unaccounted") || IsType(e, "failed") || IsType(e, "error") || IsType(e, "incomplete"))
        && v == Map(e))
    || (Returns(e) && !Fine(e) && v == e["result"])
  }

  predicate Fine(e: Event)
    requires Returns(e)
  {
    "ok" in e["result"].entries && e["result"].entries["ok"] == Bool(true)
  }

  /** Some text of a suspect holds `part`, after folding. */
  ghost predicate Complains(fold: string -> string, e: Event, part: string) {
    exists v, text :: Suspect(e, v) && Tells(v, "", text) && Holds(fold(text), part)
  }

  ghost predicate Holds(s: string, part: string) {
    exists before: string, after: string :: s == before + part + after
  }

  lemma HoldsIs(s: string, part: string)
    ensures Contains(s, part) <==> Holds(s, part)
  {
    if Contains(s, part) {
      var i :| 0 <= i <= |s| && part <= s[i..];
      assert s == s[..i] + part + s[i..][|part|..];
    }
    if Holds(s, part) {
      var before, after :| s == before + part + after;
      assert s[|before|..] == part + after;
    }
  }

  lemma SuspectIs(e: Event, v: Value)
    ensures Suspect(e, v) <==> FailurePayload(e) == Some(v)
  {
  }

  lemma {:induction false} PayloadsAre(events: seq<Event>, v: Value)
    ensures v in Payloads(events) <==> exists e :: e in events && Suspect(e, v)
  {
    hide Suspect, FailurePayload;
    if events != [] {
      var last := events[|events| - 1];
      assert events == events[..|events| - 1] + [last];
      SuspectIs(last, v);
      PayloadsAre(events[..|events| - 1], v);
    }
  }

  lemma MentionsIs(fold: string -> string, events: seq<Event>, part: string)
    ensures Mentions(fold, Payloads(events), part) <==> exists e :: e in events && Complains(fold, e, part)
  {
    hide Payloads, Suspect, FailureTexts, Contains, Holds, Tells;
    if Mentions(fold, Payloads(events), part) {
      var v :| v in Payloads(events) && exists t :: t in FailureTexts(v, "") && Contains(fold(t), part);
      var t :| t in FailureTexts(v, "") && Contains(fold(t), part);
      PayloadsAre(events, v);
      var e :| e in events && Suspect(e, v);
      TextsAre(v, "", t);
      HoldsIs(fold(t), part);
      assert Complains(fold, e, part);
    }
    if e :| e in events && Complains(fold, e, part) {
      var v, t :| Suspect(e, v) && Tells(v, "", t) && Holds(fold(t), part);
      PayloadsAre(events, v);
      TextsAre(v, "", t);
      HoldsIs(fold(t), part);
    }
  }

  // ---------------------------------------------------------------- failures of the sessions

  /** What one session's trace gets wrong, event by event. */
  lemma SessionWrongs(fold: string -> string, events: seq<Event>, f: Failure)
    ensures f in SessionFailures(fold, events)
            <==> match f
                 case MissingTrace => events == []
                 case CostUnaccounted => exists e :: e in events && IsType(e, "cost_unaccounted")
                 case NestedOutcome(o) => exists e :: e in events && Ended(e, o) && !Successful(o)
                 case Truncation => exists e :: e in events && (Complains(fold, e, "max_tokens")
                                                                || Complains(fold, e, "truncat"))
                 case Timeout => exists e :: e in events && Complains(fold, e, "timeout")
                 case _ => false
  {
    MentionsIs(fold, events, "max_tokens");
    MentionsIs(fold, events, "truncat");
    MentionsIs(fold, events, "timeout");
    hide Mentions, Complains, EventFailures, IsType, Ended, Successful, Payloads;
    var own := set e, g | e in events && g in EventFailures(e) :: g;
    assert f in own <==> exists e :: e in events && f in EventFailures(e);
    forall e: Event
      ensures f in EventFailures(e)
              <==> Wrong(e, f)
    {
      EventWrongs(e, f);
    }
    assert SessionFailures(fold, events)
           == if events == [] then {MissingTrace}
              else own
                   + (if Mentions(fold, Payloads(events), "max_tokens") || Mentions(fold, Payloads(events), "truncat")
                      then {Truncation} else {})
                   + (if Mentions(fold, Payloads(events), "timeout") then {Timeout} else {});
  }

  /** A sub-agent's session ended with this outcome, null if none is reported. */
  predicate Ended(e: Event, outcome: Value) {
    && Brings(e) && Reported(e, "session_id").Text? && Reported(e, "session_id").text != ""
    && Reported(e, "outcome") == outcome
  }

  /** What one event alone gets wrong. */
  predicate Wrong(e: Event, f: Failure) {
    match f
    case CostUnaccounted => IsType(e, "cost_unaccounted")
    case NestedOutcome(o) => Ended(e, o) && !Successful(o)
    case _ => false
  }

  lemma EventWrongs(e: Event, f: Failure)
    ensures f in EventFailures(e)
            <==> Wrong(e, f)
  {
  }

  /** What the traces of the sessions read get wrong. */
  ghost predicate WrongInTraces(traces: Traces, root: string, fold: string -> string, f: Failure) {
    match f
    case MissingTrace => exists s :: ReadFrom(traces, root, s) && (s !in traces || traces[s] == [])
    case CostUnaccounted =>
      exists s, e :: ReadFrom(traces, root, s) && InTrace(traces, s, e) && IsType(e, "cost_unaccounted")
    case NestedOutcome(o) =>
      exists s, e :: ReadFrom(traces, root, s) && InTrace(traces, s, e) && Ended(e, o) && !Successful(o)
    case Truncation =>
      exists s, e :: ReadFrom(traces, root, s) && InTrace(traces, s, e)
                     && (Complains(fold, e, "max_tokens") || Complains(fold, e, "truncat"))
    case Timeout =>
      exists s, e :: ReadFrom(traces, root, s) && InTrace(traces, s, e) && Complains(fold, e, "timeout")
    case _ => false
  }

  lemma FailuresOverAre(traces: Traces, root: string, fold: string -> string, f: Failure)
    ensures f in FailuresOver(traces, fold, ReadOrder(traces, root)) <==> WrongInTraces(traces, root, fold, f)
  {
    OrderReads(traces, root);
    var order := ReadOrder(traces, root);
    hide ReadOrder, ReadFrom, SessionFailures, IsType, Ended, Successful, Complains;
    forall s: string, e: Event ensures InTrace(traces, s, e) <==> e in Trace(traces, s) {
    }
    if f in FailuresOver(traces, fold, order) {
      var s :| s in order && f in SessionFailures(fold, Trace(traces, s));
      SessionWrongs(fold, Trace(traces, s), f);
    }
    if WrongInTraces(traces, root, fold, f) {
      var s := WrongSession(traces, root, fold, f);
      SessionWrongs(fold, Trace(traces, s), f);
      assert f in SessionFailures(fold, Trace(traces, s));
    }
  }

  lemma WrongSession(traces: Traces, root: string, fold: string -> string, f: Failure) returns (s: string)
    requires WrongInTraces(traces, root, fold, f)
    ensures ReadFrom(traces, root, s)
    ensures match f
            case MissingTrace => Trace(traces, s) == []
            case CostUnaccounted => exists e :: e in Trace(traces, s) && IsType(e, "cost_unaccounted")
            case NestedOutcome(o) => exists e :: e in Trace(traces, s) && Ended(e, o) && !Successful(o)
            case Truncation => exists e :: e in Trace(traces, s) && (Complains(fold, e, "max_tokens")
                                                                     || Complains(fold, e, "truncat"))
            case Timeout => exists e :: e in Trace(traces, s) && Complains(fold, e, "timeout")
            case _ => false
  {
    hide ReadFrom, IsType, Ended, Successful, Complains;
    match f
    case MissingTrace =>
      s :| ReadFrom(traces, root, s) && (s !in traces || traces[s] == []);
    case CostUnaccounted =>
      var e;
      s, e :| ReadFrom(traces, root, s) && InTrace(traces, s, e) && IsType(e, "cost_unaccounted");
    case NestedOutcome(o) =>
      var e;
      s, e :| ReadFrom(traces, root, s) && InTrace(traces, s, e) && Ended(e, o) && !Successful(o);
    case Truncation =>
      var e;
      s, e :| ReadFrom(traces, root, s) && InTrace(traces, s, e)
              && (Complains(fold, e, "max_tokens") || Complains(fold, e, "truncat"));
    case Timeout =>
      var e;
      s, e :| ReadFrom(traces, root, s) && InTrace(traces, s, e) && Complains(fold, e, "timeout");
  }

  // ---------------------------------------------------------------- the answer and the delegations

  /** The tool call brings a report of the delegation. */
  predicate Delegates(e: Event, name: string) {
    "name" in e && e["name"] == Text(name) && Brings(e)
  }

  /** The outcome it reports, if the call was fine and reports one. */
  function OutcomeOf(e: Event): Option<string>
    requires Brings(e)
  {
    if Fine(e) && Reported(e, "outcome").Text? then Some(Reported(e, "outcome").text) else None
  }

  lemma DelegatesIs(e: Event, name: string)
    ensures Delegates(e, name) <==> DelegationOf(e, name).Some?
    ensures Delegates(e, name) ==> DelegationOf(e, name) == Some(OutcomeOf(e))
  {
  }

  /** The delegation's last report, at a place of the root's trace. */
  ghost predicate LastReport(events: seq<Event>, name: string, k: nat) {
    && k < |events| && Delegates(events[k], name)
    && forall j :: k < j < |events| ==> !Delegates(events[j], name)
  }

  lemma {:induction false} LastIs(events: seq<Event>, name: string)
    ensures LastDelegation(events, name).None? <==> forall e :: e in events ==> !Delegates(e, name)
    ensures forall k: nat :: LastReport(events, name, k) ==> LastDelegation(events, name) == Some(OutcomeOf(events[k]))
    ensures LastDelegation(events, name).Some? ==> exists k: nat :: LastReport(events, name, k)
  {
    if events != [] {
      var n := |events| - 1;
      DelegatesIs(events[n], name);
      hide DelegationOf, Delegates, OutcomeOf;
      LastIs(events[..n], name);
      assert events == events[..n] + [events[n]];
      if Delegates(events[n], name) {
        assert LastReport(events, name, n);
      } else {
        forall k: nat ensures LastReport(events, name, k) <==> LastReport(events[..n], name, k) {
        }
      }
    }
  }

  /** What one required delegation gets wrong. */
  ghost predicate WrongDelegation(events: seq<Event>, name: string, f: Failure) {
    match f
    case MissingDelegation(n) => n == name && forall e :: e in events ==> !Delegates(e, name)
    case FailedDelegation(n, reported) =>
      && n == name && !(reported.Some? && Successful(Text(reported.value)))
      && exists k: nat :: LastReport(events, name, k) && OutcomeOf(events[k]) == reported
    case _ => false
  }

  /** What the run's own answer and the root's delegations get wrong. */
  ghost predicate WrongAtRoot(payload: map<string, Value>, traces: Traces, required: seq<string>, root: string,
                              f: Failure)
  {
    var events := if root in traces then traces[root] else [];
    match f
    case RootOutcome(o) => !Successful(o) && o == if "outcome" in payload then payload["outcome"] else Null
    case MissingFinalText =>
      !("final_text" in payload && payload["final_text"].Text?
        && exists c :: c in payload["final_text"].text && !Strings.IsSpace(c))
    case MissingDelegation(name) => name in required && WrongDelegation(events, name, f)
    case FailedDelegation(name, _) => name in required && WrongDelegation(events, name, f)
    case _ => false
  }

  lemma AnswerWrongs(payload: map<string, Value>, traces: Traces, required: seq<string>, root: string, f: Failure)
    ensures f.RootOutcome? || f.MissingFinalText?
            ==> (f in PayloadFailures(payload) <==> WrongAtRoot(payload, traces, required, root, f))
    ensures f in PayloadFailures(payload) ==> f.RootOutcome? || f.MissingFinalText?
  {
    var text := Get(payload, "final_text");
    if text.Text? {
      Strings.StripBlank(text.text);
    }
    hide Strings.Strip, Strings.IsSpace;
  }

  lemma DelegationWrong(events: seq<Event>, name: string, f: Failure)
    ensures f in DelegationFailure(events, name) <==> WrongDelegation(events, name, f)
  {
    LastIs(events, name);
    hide LastDelegation, Delegates, OutcomeOf;
    if f in DelegationFailure(events, name) && LastDelegation(events, name).Some? {
      var k: nat :| LastReport(events, name, k);
    }
  }

  lemma DelegationWrongs(payload: map<string, Value>, traces: Traces, required: seq<string>, root: string, f: Failure)
    ensures f.MissingDelegation? || f.FailedDelegation?
            ==> (f in DelegationFailures(Trace(traces, root), required)
                 <==> WrongAtRoot(payload, traces, required, root, f))
    ensures f in DelegationFailures(Trace(traces, root), required) ==> f.MissingDelegation? || f.FailedDelegation?
  {
    var events := Trace(traces, root);
    assert f in DelegationFailures(events, required)
           <==> exists name :: name in required && f in DelegationFailure(events, name);
    forall name: string
      ensures f in DelegationFailure(events, name) <==> WrongDelegation(events, name, f)
    {
      DelegationWrong(events, name, f);
    }
    WrongNameIs(events, f);
    hide WrongDelegation, DelegationFailure, DelegationFailures, Successful;
  }

  lemma WrongNameIs(events: seq<Event>, f: Failure)
    ensures forall name :: WrongDelegation(events, name, f)
                           ==> (f.MissingDelegation? || f.FailedDelegation?) && f.name == name
  {
    hide LastReport, Delegates, OutcomeOf, Successful;
  }

  /** Every failure of a run is there exactly for its reason. */
  lemma FailuresExactly(payload: map<string, Value>, traces: Traces, required: seq<string>, fold: string -> string,
                        root: string, f: Failure)
    requires RunAs(payload, root)
    ensures f in AnalysisOf(payload, traces, required, fold).failures
            <==> || WrongAtRoot(payload, traces, required, root, f)
                 || WrongInTraces(traces, root, fold, f)
                 || (f == MissingCostUsage
                     && forall s, e, x :: ReadFrom(traces, root, s) && InTrace(traces, s, e) ==> !Charges(e, x))
    ensures AnalysisOf(payload, traces, required, fold).complete
            <==> AnalysisOf(payload, traces, required, fold).failures == {}
  {
    hide *;
    AuditIs(payload, traces, required, fold, root);
    FailuresOverAre(traces, root, fold, f);
    AnswerWrongs(payload, traces, required, root, f);
    DelegationWrongs(payload, traces, required, root, f);
    CostedOverIs(traces, root);
    Disjoint(payload, traces, required, fold, root, f);
  }

  lemma CostedOverIs(traces: Traces, root: string)
    ensures CostedOver(traces, ReadOrder(traces, root))
            <==> exists s, e, x :: ReadFrom(traces, root, s) && InTrace(traces, s, e) && Charges(e, x)
  {
    OrderReads(traces, root);
    forall e: Event ensures CostOf(e).Some? <==> exists x :: Charges(e, x) {
      if CostOf(e).Some? {
        ChargesAre(e, CostOf(e).value);
      }
      if x :| Charges(e, x) {
        ChargesAre(e, x);
      }
    }
    hide ReadOrder, ReadFrom, CostOf, Charges;
    if CostedOver(traces, ReadOrder(traces, root)) {
      var s :| s in ReadOrder(traces, root) && Costed(Trace(traces, s));
      var e :| e in Trace(traces, s) && CostOf(e).Some?;
      assert InTrace(traces, s, e);
    }
    if s, e, x :| ReadFrom(traces, root, s) && InTrace(traces, s, e) && Charges(e, x) {
      assert e in Trace(traces, s) && Costed(Trace(traces, s));
    }
  }

  lemma Disjoint(payload: map<string, Value>, traces: Traces, required: seq<string>, fold: string -> string,
                 root: string, f: Failure)
    ensures WrongAtRoot(payload, traces, required, root, f)
            ==> f.RootOutcome? || f.MissingFinalText? || f.MissingDelegation? || f.FailedDelegation?
    ensures WrongInTraces(traces, root, fold, f) ==> !f.MissingCostUsage?
  {
    hide LastReport, Delegates, OutcomeOf, ReadFrom, Complains, Successful, Strings.IsSpace;
  }

  /** Without a session id nothing is read. */
  lemma NoSession(payload: map<string, Value>, traces: Traces, required: seq<string>, fold: string -> string)
    requires forall root: string :: !RunAs(payload, root)
    ensures var r := AnalysisOf(payload, traces, required, fold);
            && !r.complete && r.totalCost == None && r.guidelines == 0 && r.kinds == {}
            && forall f :: f in r.failures
                           <==> f == MissingSessionId
                                || ((f.RootOutcome? || f.MissingFinalText?)
                                    && WrongAtRoot(payload, traces, required, "", f))
  {
    var session := Get(payload, "session_id");
    if session.Text? {
      assert !RunAs(payload, session.text);
    }
    forall f: Failure
      ensures f in PayloadFailures(payload)
              <==> (f.RootOutcome? || f.MissingFinalText?) && WrongAtRoot(payload, traces, required, "", f)
    {
      AnswerWrongs(payload, traces, required, "", f);
    }
    hide PayloadFailures, WrongAtRoot, Audit;
  }
}
