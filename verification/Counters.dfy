/** Quotas counted in Redis: reserve with INCRBY, check, undo with DECRBY
    (app/services/workspace_limits.py, app/middleware/rate_limit.py). Many requests run at once;
    each Redis command is one atomic step. Redis neither fails nor loses a key here. */
module Counters {
  import opened Dicts

  type Key = string

  /** `capped`: keys counted and undone as a group (the demo's session and day keys; the tenant's
      items of the day). `month`: the monthly key, seeded from the logs when missing. */
  datatype Request = Request(count: nat, capped: seq<Key>, month: Option<Key>)

  datatype Pc =
    | Counting(j: nat)                // next: INCRBY capped[j]
    | Undoing(j: nat, n: nat)         // refused at capped[n - 1]; next: DECRBY capped[j]
    | Refused                         // raised by a cap, everything undone
    | Exists                          // next: EXISTS month
    | Seeding                         // next: SET month <served> NX
    | Incrementing                    // next: INCRBY month
    | Decrementing                    // over the monthly limit; next: DECRBY month
    | MonthRefused                    // raised by the monthly limit; the caps stay counted
    | Admitted

  datatype Client = Client(request: Request, pc: Pc)

  /** `limits` gives every key's limit, `monthly` tells the monthly keys from the others. */
  datatype Rules = Rules(limits: Key -> int, monthly: Key -> bool)

  datatype State = State(counters: map<Key, int>, seeds: map<Key, int>, clients: seq<Client>)

  ghost predicate ValidRequest(r: Request, rules: Rules) {
    && (forall i :: 0 <= i < |r.capped| ==> !rules.monthly(r.capped[i]))
    && (forall i, j :: 0 <= i < j < |r.capped| ==> r.capped[i] != r.capped[j])
    && (r.month.Some? ==> rules.monthly(r.month.value))
  }

  /** A missing key counts as 0. */
  function Value(m: map<Key, int>, key: Key): int {
    if key in m then m[key] else 0
  }

  function Add(m: map<Key, int>, key: Key, n: int): map<Key, int> {
    m[key := Value(m, key) + n]
  }

  function AfterCaps(r: Request): Pc {
    if r.month.Some? then Exists else Admitted
  }

  function Begin(r: Request): Client {
    Client(r, if r.capped == [] then AfterCaps(r) else Counting(0))
  }

  ghost predicate ValidPc(c: Client) {
    match c.pc
    case Counting(j) => j < |c.request.capped|
    case Undoing(j, n) => j < n <= |c.request.capped|
    case Refused => true
    case Admitted => true
    case _ => c.request.month.Some?
  }

  /** One Redis command of client `c`. `served` is what the logs say when seeding. */
  function Step(s: State, c: nat, served: int, rules: Rules): State
    requires c < |s.clients| && ValidPc(s.clients[c])
  {
    var Client(r, pc) := s.clients[c];
    match pc
    case Counting(j) =>
      var counters := Add(s.counters, r.capped[j], r.count);
      var next := if counters[r.capped[j]] > rules.limits(r.capped[j]) then Undoing(0, j + 1)
                  else if j + 1 < |r.capped| then Counting(j + 1) else AfterCaps(r);
      s.(counters := counters, clients := s.clients[c := Client(r, next)])
    case Undoing(j, n) =>
      var next := if j + 1 < n then Undoing(j + 1, n) else Refused;
      s.(counters := Add(s.counters, r.capped[j], -(r.count as int)), clients := s.clients[c := Client(r, next)])
    case Exists =>
      s.(clients := s.clients[c := Client(r, if r.month.value in s.counters then Incrementing else Seeding)])
    case Seeding =>
      var clients := s.clients[c := Client(r, Incrementing)];
      if r.month.value in s.counters then s.(clients := clients)
      else State(s.counters[r.month.value := served], s.seeds[r.month.value := served], clients)
    case Incrementing =>
      var counters := Add(s.counters, r.month.value, r.count);
      var next := if counters[r.month.value] > rules.limits(r.month.value) then Decrementing else Admitted;
      s.(counters := counters, clients := s.clients[c := Client(r, next)])
    case Decrementing =>
      s.(counters := Add(s.counters, r.month.value, -(r.count as int)),
         clients := s.clients[c := Client(r, MonthRefused)])
    case Refused => s
    case MonthRefused => s
    case Admitted => s
  }

  // ---- What each client holds, has secured, and was admitted for ----

  predicate Among(keys: seq<Key>, lo: nat, hi: nat, key: Key)
    requires lo <= hi <= |keys|
  {
    exists i :: lo <= i < hi && keys[i] == key
  }

  /** The request's count, if `key` is one of `capped[lo..hi]` or the month being counted. */
  function Amount(r: Request, lo: nat, hi: nat, month: bool, key: Key): nat
    requires lo <= hi <= |r.capped|
  {
    if Among(r.capped, lo, hi, key) || (month && r.month == Some(key)) then r.count else 0
  }

  /** `Held`: the client's share of a counter. `Secured`: what it holds after a successful check.
      `Passed`: its caps once it is past all of them, its month once admitted, whether or not it was
      admitted in the end. `Served`: all it asked for once admitted, else nothing. */
  datatype Share = Held | Secured | Passed | Served

  function ShareOf(share: Share, c: Client, key: Key): nat
    requires ValidPc(c)
  {
    var r := c.request;
    if share.Served? && !c.pc.Admitted? then 0
    else
    match c.pc
    case Counting(j) => Amount(r, 0, if share.Passed? then 0 else j, false, key)
    case Undoing(j, n) =>
      if share.Passed? then 0 else Amount(r, j, if share.Held? then n else n - 1, false, key)
    case Refused => 0
    case Decrementing => Amount(r, 0, |r.capped|, share.Held?, key)
    case Admitted => Amount(r, 0, |r.capped|, true, key)
    case _ => Amount(r, 0, |r.capped|, false, key)
  }

  ghost predicate ValidPcs(clients: seq<Client>) {
    forall i :: 0 <= i < |clients| ==> ValidPc(clients[i])
  }

  function Total(share: Share, clients: seq<Client>, key: Key): nat
    requires ValidPcs(clients)
  {
    if clients == [] then 0
    else
      assert ValidPc(clients[0]);
      ShareOf(share, clients[0], key) + Total(share, clients[1..], key)
  }

  lemma {:induction false} TotalUpdate(share: Share, clients: seq<Client>, c: nat, client: Client, key: Key)
    requires ValidPcs(clients) && c < |clients| && ValidPc(client)
    ensures ValidPcs(clients[c := client])
    ensures Total(share, clients[c := client], key)
         == Total(share, clients, key) - ShareOf(share, clients[c], key) + ShareOf(share, client, key)
    ensures ShareOf(share, clients[c], key) <= Total(share, clients, key)
  {
    var r := clients[c := client];
    if c == 0 {
      assert r[1..] == clients[1..];
    } else {
      assert r[1..] == clients[1..][c - 1 := client];
      TotalUpdate(share, clients[1..], c - 1, client, key);
    }
  }

  lemma {:induction false} TotalAppend(share: Share, clients: seq<Client>, client: Client, key: Key)
    requires ValidPcs(clients) && ValidPc(client)
    ensures ValidPcs(clients + [client])
    ensures Total(share, clients + [client], key) == Total(share, clients, key) + ShareOf(share, client, key)
  {
    if clients == [] {
      assert (clients + [client])[1..] == [];
    } else {
      assert (clients + [client])[1..] == clients[1..] + [client];
      TotalAppend(share, clients[1..], client, key);
    }
  }

  // ---- The invariant ----

  ghost predicate PastSeeding(c: Client) {
    c.pc.Incrementing? || c.pc.Decrementing? || c.pc.MonthRefused? || (c.pc.Admitted? && c.request.month.Some?)
  }

  ghost predicate ValidClient(c: Client, counters: map<Key, int>, rules: Rules) {
    && ValidPc(c) && ValidRequest(c.request, rules)
    && (PastSeeding(c) ==> c.request.month.value in counters)
  }

  ghost predicate ValidClients(s: State, rules: Rules) {
    forall i :: 0 <= i < |s.clients| ==> ValidClient(s.clients[i], s.counters, rules)
  }

  /** A counter is its seed plus what is held; what is secured fits under the limit; a month whose
      key is missing has nobody counting. */
  ghost predicate Balanced(s: State, rules: Rules, key: Key)
    requires ValidPcs(s.clients)
  {
    && Value(s.counters, key) == Value(s.seeds, key) + Total(Held, s.clients, key)
    && (Total(Secured, s.clients, key) > 0 ==>
        Value(s.seeds, key) + Total(Secured, s.clients, key) <= rules.limits(key))
    && (rules.monthly(key) && key !in s.counters ==> key !in s.seeds && Total(Held, s.clients, key) == 0)
  }

  ghost predicate Inv(s: State, rules: Rules) {
    ValidClients(s, rules) && ValidPcs(s.clients) && forall key :: Balanced(s, rules, key)
  }

  lemma AmountMonth(r: Request, rules: Rules, key: Key)
    requires ValidRequest(r, rules)
    ensures Amount(r, 0, |r.capped|, true, key)
         == Amount(r, 0, |r.capped|, false, key) + if r.month == Some(key) then r.count else 0
  {
  }

  lemma {:induction false} SharesOrdered(clients: seq<Client>, key: Key, rules: Rules)
    requires ValidPcs(clients) && forall i :: 0 <= i < |clients| ==> ValidRequest(clients[i].request, rules)
    ensures Total(Served, clients, key) <= Total(Passed, clients, key)
    ensures Total(Passed, clients, key) <= Total(Secured, clients, key) <= Total(Held, clients, key)
  {
    if clients != [] {
      assert ValidPc(clients[0]);
      SharesOrdered(clients[1..], key, rules);
    }
  }

  /** The mover's new share balances its counter, and what it newly secures fits under the limit. */
  ghost predicate GoodMove(s: State, s': State, c: nat, rules: Rules, key: Key)
    requires c < |s.clients| == |s'.clients| && ValidPc(s.clients[c]) && ValidPc(s'.clients[c])
  {
    var old', new' := s.clients[c], s'.clients[c];
    && Value(s'.counters, key) - Value(s'.seeds, key) - ShareOf(Held, new', key)
       == Value(s.counters, key) - Value(s.seeds, key) - ShareOf(Held, old', key)
    && (ShareOf(Secured, new', key) > ShareOf(Secured, old', key) ==> Value(s'.counters, key) <= rules.limits(key))
    && (Value(s'.seeds, key) == Value(s.seeds, key) || (key !in s.counters && rules.monthly(key)))
  }

  lemma StepCounting(s: State, c: nat, served: int, rules: Rules, key: Key)
    requires c < |s.clients| && ValidClient(s.clients[c], s.counters, rules) && s.clients[c].pc.Counting?
    ensures ValidClient(Step(s, c, served, rules).clients[c], Step(s, c, served, rules).counters, rules)
    ensures GoodMove(s, Step(s, c, served, rules), c, rules, key)
  {
  }

  lemma StepUndoing(s: State, c: nat, served: int, rules: Rules, key: Key)
    requires c < |s.clients| && ValidClient(s.clients[c], s.counters, rules) && s.clients[c].pc.Undoing?
    ensures ValidClient(Step(s, c, served, rules).clients[c], Step(s, c, served, rules).counters, rules)
    ensures GoodMove(s, Step(s, c, served, rules), c, rules, key)
  {
  }

  lemma StepMonth(s: State, c: nat, served: int, rules: Rules, key: Key)
    requires c < |s.clients| && ValidClient(s.clients[c], s.counters, rules)
    requires s.clients[c].pc.Incrementing? || s.clients[c].pc.Decrementing?
    ensures ValidClient(Step(s, c, served, rules).clients[c], Step(s, c, served, rules).counters, rules)
    ensures GoodMove(s, Step(s, c, served, rules), c, rules, key)
  {
    AmountMonth(s.clients[c].request, rules, key);
  }

  lemma StepElse(s: State, c: nat, served: int, rules: Rules, key: Key)
    requires c < |s.clients| && ValidClient(s.clients[c], s.counters, rules)
    requires s.clients[c].pc.Exists? || s.clients[c].pc.Seeding? || !InFlight(s.clients[c])
    requires forall k :: rules.monthly(k) && k !in s.counters ==> k !in s.seeds
    ensures ValidClient(Step(s, c, served, rules).clients[c], Step(s, c, served, rules).counters, rules)
    ensures GoodMove(s, Step(s, c, served, rules), c, rules, key)
  {
    AmountMonth(s.clients[c].request, rules, key);
  }

  lemma MonthlyMissing(s: State, rules: Rules, key: Key)
    requires Inv(s, rules) && rules.monthly(key) && key !in s.counters
    ensures key !in s.seeds
  {
    assert Balanced(s, rules, key);
  }

  lemma StepMoves(s: State, c: nat, served: int, rules: Rules, key: Key)
    requires Inv(s, rules) && c < |s.clients|
    ensures var s' := Step(s, c, served, rules);
            && ValidClient(s'.clients[c], s'.counters, rules)
            && GoodMove(s, s', c, rules, key)
            && s'.clients == s.clients[c := s'.clients[c]]
            && s.counters.Keys <= s'.counters.Keys
  {
    assert ValidClient(s.clients[c], s.counters, rules);
    if s.clients[c].pc.Counting? {
      StepCounting(s, c, served, rules, key);
    } else if s.clients[c].pc.Undoing? {
      StepUndoing(s, c, served, rules, key);
    } else if s.clients[c].pc.Incrementing? || s.clients[c].pc.Decrementing? {
      StepMonth(s, c, served, rules, key);
    } else {
      forall k | rules.monthly(k) && k !in s.counters ensures k !in s.seeds {
        MonthlyMissing(s, rules, k);
      }
      StepElse(s, c, served, rules, key);
    }
  }

  lemma StepBalanced(s: State, c: nat, served: int, rules: Rules, key: Key)
    requires Inv(s, rules) && c < |s.clients| && ValidPcs(Step(s, c, served, rules).clients)
    ensures Balanced(Step(s, c, served, rules), rules, key)
  {
    var s' := Step(s, c, served, rules);
    assert Balanced(s, rules, key);
    StepMoves(s, c, served, rules, key);
    TotalUpdate(Held, s.clients, c, s'.clients[c], key);
    TotalUpdate(Secured, s.clients, c, s'.clients[c], key);
    forall i | 0 <= i < |s'.clients| ensures ValidRequest(s'.clients[i].request, rules) {
      assert ValidClient(s.clients[i], s.counters, rules);
    }
    SharesOrdered(s'.clients, key, rules);
  }

  lemma StepKeepsInv(s: State, c: nat, served: int, rules: Rules)
    requires Inv(s, rules) && c < |s.clients|
    ensures Inv(Step(s, c, served, rules), rules)
  {
    var s' := Step(s, c, served, rules);
    StepMoves(s, c, served, rules, "");
    forall i | 0 <= i < |s'.clients| ensures ValidClient(s'.clients[i], s'.counters, rules) {
      assert ValidClient(s.clients[i], s.counters, rules);
    }
    forall key ensures Balanced(s', rules, key) {
      StepBalanced(s, c, served, rules, key);
    }
  }

  // ---- Runs ----

  /** A new request arrives, or one in flight makes its next step. */
  datatype Move = Arrive(request: Request) | Advance(c: nat, served: int)

  ghost predicate Possible(s: State, m: Move, rules: Rules) {
    match m
    case Arrive(r) => ValidRequest(r, rules)
    case Advance(c, _) => c < |s.clients| && ValidPc(s.clients[c])
  }

  function Next(s: State, m: Move, rules: Rules): State
    requires Possible(s, m, rules)
  {
    match m
    case Arrive(r) => s.(clients := s.clients + [Begin(r)])
    case Advance(c, served) => Step(s, c, served, rules)
  }

  ghost predicate IsRun(states: seq<State>, moves: seq<Move>, rules: Rules) {
    && |states| == |moves| + 1
    && forall i :: 0 <= i < |moves| ==>
         Possible(states[i], moves[i], rules) && states[i + 1] == Next(states[i], moves[i], rules)
  }

  /** Nobody has arrived; counters hold whatever was counted before, which is their seed. */
  ghost predicate Initial(s: State) {
    s.clients == [] && s.seeds == s.counters
  }

  lemma ArriveKeepsInv(s: State, r: Request, rules: Rules)
    requires Inv(s, rules) && ValidRequest(r, rules)
    ensures Inv(s.(clients := s.clients + [Begin(r)]), rules)
  {
    var s' := s.(clients := s.clients + [Begin(r)]);
    forall i | 0 <= i < |s'.clients| ensures ValidClient(s'.clients[i], s'.counters, rules) {
      if i < |s.clients| { assert ValidClient(s.clients[i], s.counters, rules); }
    }
    forall key ensures Balanced(s', rules, key) {
      assert Balanced(s, rules, key);
      TotalAppend(Held, s.clients, Begin(r), key);
      TotalAppend(Secured, s.clients, Begin(r), key);
    }
  }

  lemma {:induction false} RunKeepsInv(states: seq<State>, moves: seq<Move>, rules: Rules)
    requires IsRun(states, moves, rules) && Initial(states[0])
    ensures forall i :: 0 <= i < |states| ==> Inv(states[i], rules)
    decreases |moves|
  {
    if moves == [] {
      forall key ensures Balanced(states[0], rules, key) {}
    } else {
      var last := |moves| - 1;
      RunKeepsInv(states[..last + 1], moves[..last], rules);
      assert Inv(states[..last + 1][last], rules);
      match moves[last] {
        case Arrive(r) => ArriveKeepsInv(states[last], r, rules);
        case Advance(c, served) => StepKeepsInv(states[last], c, served, rules);
      }
      assert forall i :: 0 <= i <= last ==> states[..last + 1][i] == states[i];
    }
  }

  /** In every interleaving of any requests: what was admitted against a key, and even what passed its
      check without being admitted in the end, is with the key's seed within its limit (or there is none). */
  lemma {:induction false} LimitNeverExceeded(states: seq<State>, moves: seq<Move>, rules: Rules, i: nat, key: Key)
    requires IsRun(states, moves, rules) && Initial(states[0]) && i < |states|
    ensures ValidPcs(states[i].clients)
    ensures Total(Served, states[i].clients, key) <= Total(Passed, states[i].clients, key)
    ensures Total(Passed, states[i].clients, key) > 0 ==>
      Value(states[i].seeds, key) + Total(Passed, states[i].clients, key) <= rules.limits(key)
  {
    RunKeepsInv(states, moves, rules);
    var s := states[i];
    assert Inv(s, rules) && Balanced(s, rules, key);
    forall j | 0 <= j < |s.clients| ensures ValidRequest(s.clients[j].request, rules) {
      assert ValidClient(s.clients[j], s.counters, rules);
    }
    SharesOrdered(s.clients, key, rules);
  }

  predicate InFlight(c: Client) {
    !c.pc.Refused? && !c.pc.MonthRefused? && !c.pc.Admitted?
  }

  // ---- Every request gets its answer ----

  /** At most how many commands a request still sends. */
  function Left(c: Client): nat
    requires ValidPc(c)
  {
    match c.pc
    case Counting(j) => 2 * |c.request.capped| + 5 - j
    case Undoing(j, n) => n - j
    case Exists => 4
    case Seeding => 3
    case Incrementing => 2
    case Decrementing => 1
    case _ => 0
  }

  lemma StepAdvances(s: State, c: nat, served: int, rules: Rules)
    requires c < |s.clients| && ValidPc(s.clients[c])
    ensures var s' := Step(s, c, served, rules);
            && |s'.clients| == |s.clients|
            && (forall d :: 0 <= d < |s.clients| && d != c ==> s'.clients[d] == s.clients[d])
            && ValidPc(s'.clients[c])
            && if InFlight(s.clients[c]) then Left(s'.clients[c]) < Left(s.clients[c]) else s' == s
  {
  }

  function TimesAdvanced(moves: seq<Move>, c: nat): nat
    decreases |moves|
  {
    if moves == [] then 0
    else
      var last := |moves| - 1;
      TimesAdvanced(moves[..last], c) + if moves[last].Advance? && moves[last].c == c then 1 else 0
  }

  /** In every interleaving a request is answered within twice the keys it counts and five commands of its own,
      whatever the others do. */
  lemma {:induction false} RequestsSettle(states: seq<State>, moves: seq<Move>, rules: Rules, c: nat)
    requires IsRun(states, moves, rules) && c < |states[0].clients| && ValidPc(states[0].clients[c])
    ensures c < |states[|moves|].clients| && ValidPc(states[|moves|].clients[c])
    ensures InFlight(states[|moves|].clients[c]) ==>
              TimesAdvanced(moves, c) + Left(states[|moves|].clients[c]) <= Left(states[0].clients[c])
    ensures Left(states[0].clients[c]) <= 2 * |states[0].clients[c].request.capped| + 5
    decreases |moves|
  {
    if moves != [] {
      var last := |moves| - 1;
      var front := states[..last + 1];
      assert forall i :: 0 <= i <= last ==> front[i] == states[i];
      RequestsSettle(front, moves[..last], rules, c);
      if moves[last].Advance? { StepAdvances(states[last], moves[last].c, moves[last].served, rules); }
    }
  }

  lemma {:induction false} SettledShares(clients: seq<Client>, key: Key)
    requires ValidPcs(clients) && forall i :: 0 <= i < |clients| ==> !InFlight(clients[i])
    ensures Total(Passed, clients, key) == Total(Held, clients, key)
  {
    if clients != [] {
      assert ValidPc(clients[0]) && !InFlight(clients[0]);
      SettledShares(clients[1..], key);
    }
  }

  /** Counted at its caps, then refused by the monthly limit: the caps are not undone. */
  predicate Leftover(c: Client, key: Key) {
    c.pc.MonthRefused? && c.request.count > 0 && Among(c.request.capped, 0, |c.request.capped|, key)
  }

  lemma {:induction false} LeftoverShares(clients: seq<Client>, key: Key, rules: Rules)
    requires ValidPcs(clients) && forall i :: 0 <= i < |clients| ==> ValidRequest(clients[i].request, rules)
    requires forall i :: 0 <= i < |clients| ==> !InFlight(clients[i])
    ensures Total(Served, clients, key) == Total(Passed, clients, key) <==>
              forall i :: 0 <= i < |clients| ==> !Leftover(clients[i], key)
  {
    if clients != [] {
      assert ValidPc(clients[0]) && !InFlight(clients[0]);
      assert forall i :: 0 < i < |clients| ==> clients[i] == clients[1..][i - 1];
      LeftoverShares(clients[1..], key, rules);
      SharesOrdered(clients[1..], key, rules);
    }
  }

  /** Whenever no request is in flight, each counter is its seed plus what passed; that is its seed plus
      what was admitted against it exactly when no request counted there was then refused by the monthly
      limit. */
  lemma {:induction false} CountersSettle(states: seq<State>, moves: seq<Move>, rules: Rules, i: nat, key: Key)
    requires IsRun(states, moves, rules) && Initial(states[0]) && i < |states|
    requires forall j :: 0 <= j < |states[i].clients| ==> !InFlight(states[i].clients[j])
    ensures ValidPcs(states[i].clients)
    ensures Value(states[i].counters, key) == Value(states[i].seeds, key) + Total(Passed, states[i].clients, key)
    ensures Value(states[i].counters, key) == Value(states[i].seeds, key) + Total(Served, states[i].clients, key) <==>
              forall j :: 0 <= j < |states[i].clients| ==> !Leftover(states[i].clients[j], key)
  {
    RunKeepsInv(states, moves, rules);
    assert Inv(states[i], rules) && Balanced(states[i], rules, key);
    forall j | 0 <= j < |states[i].clients| ensures ValidRequest(states[i].clients[j].request, rules) {
      assert ValidClient(states[i].clients[j], states[i].counters, rules);
    }
    SettledShares(states[i].clients, key);
    LeftoverShares(states[i].clients, key, rules);
  }

  const DEMO_QUERY: Request := Request(1, ["session"], Some("month"))

  /** A month already used up; ten queries a session. */
  function UsedUp(): Rules {
    Rules(key => if key == "month" then 0 else 10, key => key == "month")
  }

  /** One demo query under those rules: its session is counted, then the month refuses it. */
  function Refusal(): seq<State> {
    var session, both := map["session" := 1], map["session" := 1, "month" := 0];
    var over := map["session" := 1, "month" := 1];
    var seeds := map["month" := 0];
    [ State(map[], map[], []),
      State(map[], map[], [Client(DEMO_QUERY, Counting(0))]),
      State(session, map[], [Client(DEMO_QUERY, Exists)]),
      State(session, map[], [Client(DEMO_QUERY, Seeding)]),
      State(both, seeds, [Client(DEMO_QUERY, Incrementing)]),
      State(over, seeds, [Client(DEMO_QUERY, Decrementing)]),
      State(both, seeds, [Client(DEMO_QUERY, MonthRefused)])]
  }

  lemma RefusalRefuses()
    ensures var s, rules := Refusal(), UsedUp();
            && Step(s[3], 0, 0, rules) == s[4] && Step(s[4], 0, 0, rules) == s[5] && Step(s[5], 0, 0, rules) == s[6]
  {
    assert Add(map["session" := 1, "month" := 1], "month", -1) == map["session" := 1, "month" := 0];
  }

  function RefusalMoves(): seq<Move> {
    [Arrive(DEMO_QUERY), Advance(0, 0), Advance(0, 0), Advance(0, 0), Advance(0, 0), Advance(0, 0)]
  }

  lemma RefusalMove(i: nat)
    requires i < 6
    ensures Possible(Refusal()[i], RefusalMoves()[i], UsedUp())
    ensures Refusal()[i + 1] == Next(Refusal()[i], RefusalMoves()[i], UsedUp())
  {
    RefusalRefuses();
    assert i == 0 || RefusalMoves()[i] == Advance(0, 0);
    assert i == 0 || i == 1 || i == 2 || i == 3 || i == 4 || i == 5;
  }

  /** The exception occurs: nobody is admitted or in flight, and a session is counted past its seed. */
  lemma MonthlyRefusalKeepsCaps()
    ensures IsRun(Refusal(), RefusalMoves(), UsedUp()) && Initial(Refusal()[0])
    ensures var end := Refusal()[6];
            && end.clients == [Client(DEMO_QUERY, MonthRefused)]
            && Value(end.counters, "session") == 1 && Value(end.seeds, "session") == 0
  {
    forall i | 0 <= i < 6
      ensures Possible(Refusal()[i], RefusalMoves()[i], UsedUp())
      ensures Refusal()[i + 1] == Next(Refusal()[i], RefusalMoves()[i], UsedUp())
    {
      RefusalMove(i);
    }
  }

  /** The key whose counter decides the client's next step. */
  function Deciding(c: Client): Option<Key>
    requires ValidPc(c)
  {
    match c.pc
    case Counting(j) => Some(c.request.capped[j])
    case Incrementing => c.request.month
    case _ => None
  }

  /** A request with nobody else in flight is refused at a key exactly when the seed, what passed
      and its own count together exceed the limit. */
  lemma NoFalseRefusal(states: seq<State>, moves: seq<Move>, rules: Rules, i: nat, c: nat)
    requires IsRun(states, moves, rules) && Initial(states[0]) && i < |states| && c < |states[i].clients|
    requires forall j :: 0 <= j < |states[i].clients| && j != c ==> !InFlight(states[i].clients[j])
    requires ValidPc(states[i].clients[c]) && Deciding(states[i].clients[c]).Some?
    ensures var s, key := states[i], Deciding(states[i].clients[c]).value;
            var next := Step(s, c, 0, rules).clients[c].pc;
            && ValidPcs(s.clients)
            && (next.Undoing? || next.Decrementing? <==>
                Value(s.seeds, key) + Total(Passed, s.clients, key) + s.clients[c].request.count > rules.limits(key))
  {
    var s, client := states[i], states[i].clients[c];
    var key, gone := Deciding(client).value, Client(client.request, Refused);
    RunKeepsInv(states, moves, rules);
    assert Inv(s, rules) && Balanced(s, rules, key) && ValidClient(client, s.counters, rules);
    TotalUpdate(Held, s.clients, c, gone, key);
    TotalUpdate(Passed, s.clients, c, gone, key);
    SettledShares(s.clients[c := gone], key);
  }

  // ---- One request on its own ----

  /** The Redis client as one request sees it when nothing else runs. */
  class Redis {
    var counters: map<Key, int>

    constructor (start: map<Key, int>)
      ensures counters == start
    {
      counters := start;
    }

    method IncrBy(key: Key, n: int) returns (used: int)
      modifies this
      ensures counters == Add(old(counters), key, n) && used == Value(counters, key)
    {
      counters := Add(counters, key, n);
      used := counters[key];
    }

    /** `RateLimiter.consume_items`: counts, or raises without counting. */
    method ConsumeItems(key: Key, count: nat, limit: int) returns (ok: bool)
      modifies this
      ensures ok <==> Value(old(counters), key) + count <= limit
      ensures forall k :: Value(counters, k) == Value(old(counters), k) + if ok && k == key then count else 0
    {
      var used := IncrBy(key, count);
      if used > limit {
        var _ := IncrBy(key, -(count as int));
      }
      ok := used <= limit;
    }

    method Undo(counted: seq<Key>, count: nat)
      requires forall i, j :: 0 <= i < j < |counted| ==> counted[i] != counted[j]
      modifies this
      ensures forall k :: Value(counters, k) == Value(old(counters), k) - if k in counted then count else 0
    {
      for j := 0 to |counted|
        invariant forall k :: Value(counters, k) == Value(old(counters), k) - if k in counted[..j] then count else 0
      {
        assert counted[..j + 1] == counted[..j] + [counted[j]];
        assert counted[j] !in counted[..j];
        var _ := IncrBy(counted[j], -(count as int));
      }
      assert counted[..|counted|] == counted;
    }

    /** `_consume_demo`: counts against every cap, or raises and undoes those counted. */
    method ConsumeDemo(capped: seq<Key>, count: nat, limits: Key -> int) returns (ok: bool)
      requires forall i, j :: 0 <= i < j < |capped| ==> capped[i] != capped[j]
      modifies this
      ensures ok <==> forall i :: 0 <= i < |capped| ==> Value(old(counters), capped[i]) + count <= limits(capped[i])
      ensures forall k :: Value(counters, k) == Value(old(counters), k) + if ok && k in capped then count else 0
    {
      var counted: seq<Key> := [];
      for i := 0 to |capped|
        invariant counted == capped[..i]
        invariant forall j :: 0 <= j < i ==> Value(old(counters), capped[j]) + count <= limits(capped[j])
        invariant forall k :: Value(counters, k) == Value(old(counters), k) + if k in counted then count else 0
      {
        var key := capped[i];
        assert key !in counted;
        var used := IncrBy(key, count);
        counted := counted + [key];
        if used > limits(key) {
          Undo(counted, count);
          return false;
        }
      }
      return true;
    }

    /** The monthly part of `consume_queries`: seeds a missing key from the logs, then counts, or
        raises without counting. */
    method ConsumeMonth(key: Key, count: nat, limit: int, served: int) returns (ok: bool)
      modifies this
      ensures var start := if key in old(counters) then old(counters)[key] else served;
              && (ok <==> start + count <= limit)
              && key in counters && counters[key] == start + if ok then count else 0
      ensures forall k :: k != key ==> Value(counters, k) == Value(old(counters), k)
    {
      if key !in counters {
        counters := counters[key := served];
      }
      var used := IncrBy(key, count);
      if used > limit {
        var _ := IncrBy(key, -(count as int));
      }
      ok := used <= limit;
    }
  }
}
