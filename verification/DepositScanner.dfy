/**
 The deposit scanner of one network (service/blockchain_processor.go, service/credits.go, models/blockchain_cursor.go)
 running beside every other Credits transaction. Each log is its own transaction and the cursor is written after
 the last of them, so a scan may stop anywhere and its range is then scanned again.
 */
module DepositScanner {
  import opened Numbers
  import opened Options
  import opened Sums
  import opened CreditsLedger
  import opened CreditsInvariant
  import opened CreditsSteps
  import opened CreditsRuns
  import opened CreditsEffects
  import Referral

  datatype Token = Token(decimals: nat, creditsPerToken: nat)

  datatype Network = Network(name: string, start: nat, confirmations: nat, range: nat, tokens: map<string, Token>)

  /** Start-up refuses an empty scan range and a token worth nothing. */
  predicate ValidNetwork(n: Network) {
    n.range > 0 && forall t | t in n.tokens :: n.tokens[t].creditsPerToken > 0
  }

  /** A log of the token contracts; `wellFormed` is the topic check and `zeroFrom` a mint. */
  datatype Log = Log(txHash: string, index: nat, contract: string, wellFormed: bool, zeroFrom: bool, from: string, amount: nat)

  /** The confirmed chain: the logs of every block, fixed once confirmed. */
  type Chain = nat -> seq<Log>

  lemma FloorDivides(product: nat, divisor: nat)
    requires divisor > 0
    ensures 0 <= product / divisor && product / divisor * divisor <= product < (product / divisor + 1) * divisor
  {
  }

  /** amount * creditsPerToken / 10^decimals, rounded down. */
  function ConvertTokenAmountToCredits(amount: nat, t: Token): (credits: nat)
    ensures credits * Pow10(t.decimals) <= amount * t.creditsPerToken < (credits + 1) * Pow10(t.decimals)
  {
    var product := amount * t.creditsPerToken;
    FloorDivides(product, Pow10(t.decimals));
    product / Pow10(t.decimals)
  }

  /** The Credits a log is worth, zero when it is to be ignored. */
  function Worth(n: Network, l: Log): nat {
    if l.contract !in n.tokens || !l.wellFormed || l.amount == 0 || l.zeroFrom then 0
    else ConvertTokenAmountToCredits(l.amount, n.tokens[l.contract])
  }

  function KeyOf(n: Network, l: Log): LogKey { LogKey(n.name, l.txHash, l.index) }

  function IndexIn(users: seq<string>, address: string): (i: Option<UserId>)
    ensures i.None? <==> address !in users
    ensures i.Some? ==> i.value < |users| && users[i.value] == address
  {
    if users == [] then None
    else
      var n := |users| - 1;
      if users[n] == address then Some(n) else IndexIn(users[..n], address)
  }

  function LogsFrom(chain: Chain, first: nat, last: int): (logs: seq<Log>)
    decreases last - first + 1
  {
    if last < first then [] else LogsFrom(chain, first, last - 1) + chain(last)
  }

  datatype Scan = Idle | Scanning(first: nat, last: nat, done: nat)

  /**
   `cursor` is the stored row. History: `tip` is the highest confirmed block seen, `ranges` the completed scans,
   and `known` the users registered when the first scan began.
   */
  datatype State = State(
    db: Db, cursor: Option<nat>, scan: Scan, tip: nat, ranges: seq<(nat, nat)>, known: Option<seq<string>>)

  const START: State := State(CreditsLedger.EMPTY, None, Idle, 0, [], None)

  datatype Move = Tick(latest: nat) | ProcessLog | WriteCursor | Crash | Other(step: Step)

  /** The deposit transaction of one log, or nothing when it is ignored or its sender is unknown. */
  function Process(cfg: Config, n: Network, db: Db, l: Log): Db {
    var user := IndexIn(db.users, l.from);
    if Worth(n, l) == 0 || user.None? then db else Apply(cfg, db, MakeDeposit(user.value, KeyOf(n, l), Worth(n, l)))
  }

  /** Deposits of this network come from its scanner only. */
  predicate Foreign(n: Network, a: Action) { a.MakeDeposit? ==> a.key.network != n.name }

  function Next(cfg: Config, n: Network, chain: Chain, s: State, m: Move): Option<State> {
    match m
    case Tick(latest) =>
      if s.scan != Idle || latest < n.confirmations then None
      else
        var tip := latest - n.confirmations;
        var cursor := if s.cursor.Some? then s.cursor.value else n.start;
        var seen := s.(tip := if tip > s.tip then tip else s.tip, cursor := Some(cursor));
        if cursor >= tip then Some(seen)
        else
          var first := cursor + 1;
          var last := if tip - first + 1 > n.range then first + n.range - 1 else tip;
          Some(seen.(scan := Scanning(first, last, 0), known := if s.known.Some? then s.known else Some(s.db.users)))
    case ProcessLog =>
      if s.scan == Idle then None
      else
        var logs := LogsFrom(chain, s.scan.first, s.scan.last);
        if s.scan.done >= |logs| then None
        else Some(s.(db := Process(cfg, n, s.db, logs[s.scan.done]), scan := s.scan.(done := s.scan.done + 1)))
    case WriteCursor =>
      if s.scan == Idle || s.scan.done < |LogsFrom(chain, s.scan.first, s.scan.last)| then None
      else Some(s.(cursor := Some(s.scan.last), ranges := s.ranges + [(s.scan.first, s.scan.last)], scan := Idle))
    case Crash => Some(s.(scan := Idle))
    case Other(step) => if Foreign(n, step.action) then Some(s.(db := Take(cfg, s.db, step))) else None
  }

  function Advance(cfg: Config, n: Network, chain: Chain, s: State, m: Move): State {
    var next := Next(cfg, n, chain, s, m);
    if next.Some? then next.value else s
  }

  function Execute(cfg: Config, n: Network, chain: Chain, moves: seq<Move>): State {
    if moves == [] then START
    else Advance(cfg, n, chain, Execute(cfg, n, chain, moves[..|moves| - 1]), moves[|moves| - 1])
  }

  // ---------------------------------------------------------------------------------------------
  // The invariant

  ghost predicate Deposited(db: Db, key: LogKey) {
    exists d :: 0 <= d < |db.deposits| && db.deposits[d].key == key
  }

  /** A log that has to have been credited: worth a Credit, from a user known at the first scan. */
  predicate Due(n: Network, known: seq<string>, l: Log) {
    Worth(n, l) > 0 && l.from in known
  }

  ghost predicate AllCredited(n: Network, s: State, logs: seq<Log>) {
    forall i | 0 <= i < |logs| && s.known.Some? && Due(n, s.known.value, logs[i]) :: Deposited(s.db, KeyOf(n, logs[i]))
  }

  /** Every deposit of this network is for a log at or below a block the scanner has reached, at its worth. */
  ghost predicate Genuine(n: Network, chain: Chain, s: State, d: Deposit) {
    d.key.network == n.name ==>
      exists b, i :: n.start < b <= Reached(n, s) && 0 <= i < |chain(b)|
                     && KeyOf(n, chain(b)[i]) == d.key && Worth(n, chain(b)[i]) == d.credits
                     && d.user < |s.db.users| && s.db.users[d.user] == chain(b)[i].from
  }

  /** The highest block a scan has touched. */
  function Reached(n: Network, s: State): nat {
    var cursor := if s.cursor.Some? then s.cursor.value else n.start;
    if s.tip > cursor then s.tip else cursor
  }

  ghost predicate CursorOk(n: Network, s: State) {
    && (s.cursor.None? ==> s.scan == Idle && s.ranges == [])
    && (s.cursor.Some? ==> s.cursor.value == if s.ranges == [] then n.start else s.ranges[|s.ranges| - 1].1)
    && (s.cursor.Some? ==> n.start <= s.cursor.value)
    && (s.ranges != [] ==> s.ranges[0].0 == n.start + 1)
    && (forall i | 0 < i < |s.ranges| :: s.ranges[i].0 == s.ranges[i - 1].1 + 1)
    && (forall i | 0 <= i < |s.ranges| ::
          s.ranges[i].0 <= s.ranges[i].1 <= s.tip && s.ranges[i].1 - s.ranges[i].0 < n.range)
    && (s.scan.Scanning? ==>
          && s.cursor.Some? && s.scan.first == s.cursor.value + 1
          && s.scan.first <= s.scan.last <= s.tip && s.scan.last - s.scan.first < n.range)
    && ((s.ranges != [] || s.scan.Scanning?) ==> s.known.Some?)
  }

  ghost predicate CreditOk(n: Network, chain: Chain, s: State) {
    && (s.known.Some? ==> s.known.value <= s.db.users)
    && (s.cursor.Some? ==> AllCredited(n, s, LogsFrom(chain, n.start + 1, s.cursor.value)))
    && (s.scan.Scanning? ==>
          && s.scan.done <= |LogsFrom(chain, s.scan.first, s.scan.last)|
          && AllCredited(n, s, LogsFrom(chain, s.scan.first, s.scan.last)[..s.scan.done]))
  }

  ghost predicate Sound(n: Network, chain: Chain, s: State) {
    forall i | 0 <= i < |s.db.deposits| :: Genuine(n, chain, s, s.db.deposits[i])
  }

  ghost predicate ScanInv(cfg: Config, n: Network, chain: Chain, s: State) {
    Inv(cfg, s.db) && CursorOk(n, s) && CreditOk(n, chain, s) && Sound(n, chain, s)
  }

  // ---------------------------------------------------------------------------------------------
  // What the Credits transactions do to users and deposits

  /** Users and deposits are only ever appended to, and a deposit only by its own transaction. */
  ghost predicate Appends(before: Db, after: Db, a: Action) {
    && before.users <= after.users && before.deposits <= after.deposits
    && (a.MakeDeposit? ==>
          after.users == before.users
          && (after.deposits == before.deposits || after.deposits == before.deposits + [Deposit(a.user, a.key, a.credits)]))
    && (!a.MakeDeposit? ==> after.deposits == before.deposits)
  }

  lemma DepositAppends(cfg: Config, db: Db, a: Action)
    requires a.MakeDeposit?
    ensures Appends(db, Apply(cfg, db, a), a)
  {
    hide ApplyDeposit, Quiet;
    DepositIsQuiet(cfg, db, a.user, a.key, a.credits);
  }

  lemma ApplyAppends(cfg: Config, db: Db, a: Action)
    requires MoneyOk(db)
    ensures Appends(db, Apply(cfg, db, a), a)
  {
    hide MoneyOk, Finish, Apply;
    if a.MakeDeposit? {
      DepositAppends(cfg, db, a);
    } else if Closes(a) {
      if Apply(cfg, db, a) != db {
        ClosingStep(cfg, db, a);
      }
    } else {
      OtherStepIsQuiet(cfg, db, a);
    }
  }

  /** A deposit for a registered user is on record afterwards, whether it is new or was there before. */
  lemma DepositCommits(cfg: Config, db: Db, u: UserId, key: LogKey, credits: int)
    requires ValidConfig(cfg) && Inv(cfg, db) && u < |db.accounts| && credits > 0
    ensures Deposited(Apply(cfg, db, MakeDeposit(u, key, credits)), key)
  {
    hide MoneyOk, LifecycleOk, LedgerOk, ReferralOk, StatsOk, EarningsOk, PayReferral;
    if !Deposited(db, key) {
      NewDepositIsFirst(db);
      PayReferralSucceeds(cfg, db, u, key, credits);
      PayReferralIsQuiet(cfg, Credit(db, u, key, credits), |db.deposits|);
      assert Apply(cfg, db, MakeDeposit(u, key, credits)).deposits[|db.deposits|].key == key;
    }
  }

  // ---------------------------------------------------------------------------------------------
  // Preservation

  lemma StaysCredited(n: Network, s: State, out: State, logs: seq<Log>)
    requires AllCredited(n, s, logs) && s.db.deposits <= out.db.deposits && out.known == s.known
    ensures AllCredited(n, out, logs)
  {
    forall i | 0 <= i < |logs| && s.known.Some? && Due(n, s.known.value, logs[i])
      ensures Deposited(out.db, KeyOf(n, logs[i]))
    {
      var d :| 0 <= d < |s.db.deposits| && s.db.deposits[d].key == KeyOf(n, logs[i]);
      assert out.db.deposits[d].key == KeyOf(n, logs[i]);
    }
  }

  lemma StaysGenuine(n: Network, chain: Chain, s: State, out: State, d: Deposit)
    requires Genuine(n, chain, s, d) && s.db.users <= out.db.users && Reached(n, s) <= Reached(n, out)
    ensures Genuine(n, chain, out, d)
  {
  }

  lemma {:induction false} LogsAreOnChain(chain: Chain, first: nat, last: int, i: nat)
    requires i < |LogsFrom(chain, first, last)|
    ensures exists b, k :: first <= b <= last && 0 <= k < |chain(b)| && chain(b)[k] == LogsFrom(chain, first, last)[i]
    decreases last - first + 1
  {
    var before := LogsFrom(chain, first, last - 1);
    if i < |before| {
      LogsAreOnChain(chain, first, last - 1, i);
    } else {
      assert chain(last)[i - |before|] == LogsFrom(chain, first, last)[i];
    }
  }

  lemma {:induction false} LogsHold(chain: Chain, first: nat, last: int, b: nat, k: nat)
    requires first <= b <= last && k < |chain(b)|
    ensures exists i :: 0 <= i < |LogsFrom(chain, first, last)| && LogsFrom(chain, first, last)[i] == chain(b)[k]
    decreases last - first + 1
  {
    var before := LogsFrom(chain, first, last - 1);
    var all := LogsFrom(chain, first, last);
    if b == last {
      assert all[|before| + k] == chain(b)[k];
    } else {
      LogsHold(chain, first, last - 1, b, k);
      var i :| 0 <= i < |before| && before[i] == chain(b)[k];
      assert all[i] == chain(b)[k];
    }
  }

  lemma {:induction false} LogsSplit(chain: Chain, first: nat, middle: int, last: int)
    requires first - 1 <= middle <= last && middle >= 0
    ensures LogsFrom(chain, first, last) == LogsFrom(chain, first, middle) + LogsFrom(chain, middle + 1, last)
    decreases last
  {
    if middle < last {
      LogsSplit(chain, first, middle, last - 1);
    }
  }

  /** Any step of the Credits transactions that makes no deposit of this network. */
  lemma ForeignStepKeeps(cfg: Config, n: Network, chain: Chain, s: State, db: Db, a: Action)
    requires ScanInv(cfg, n, chain, s) && Foreign(n, a) && Appends(s.db, db, a) && Inv(cfg, db)
    ensures ScanInv(cfg, n, chain, s.(db := db))
  {
    hide Inv;
    var out := s.(db := db);
    if s.cursor.Some? {
      StaysCredited(n, s, out, LogsFrom(chain, n.start + 1, s.cursor.value));
    }
    if s.scan.Scanning? {
      StaysCredited(n, s, out, LogsFrom(chain, s.scan.first, s.scan.last)[..s.scan.done]);
    }
    forall i | 0 <= i < |out.db.deposits| ensures Genuine(n, chain, out, out.db.deposits[i]) {
      if i < |s.db.deposits| {
        StaysGenuine(n, chain, s, out, s.db.deposits[i]);
      }
    }
  }

  lemma OtherKeeps(cfg: Config, n: Network, chain: Chain, s: State, step: Step)
    requires ValidConfig(cfg) && ScanInv(cfg, n, chain, s) && Foreign(n, step.action)
    ensures ScanInv(cfg, n, chain, s.(db := Take(cfg, s.db, step)))
  {
    hide Apply, MoneyOk, LifecycleOk, LedgerOk, ReferralOk, StatsOk, EarningsOk, CursorOk, CreditOk, Sound;
    var later := s.db.(clock := s.db.clock + step.elapsed);
    ClockKeeps(cfg, s.db, step.elapsed);
    ApplyKeeps(cfg, later, step.action);
    ApplyAppends(cfg, later, step.action);
    ForeignStepKeeps(cfg, n, chain, s, Take(cfg, s.db, step), step.action);
  }

  /** One deposit for a registered user, new or repeated. */
  lemma DepositCredits(cfg: Config, db: Db, u: UserId, key: LogKey, credits: int)
    requires ValidConfig(cfg) && Inv(cfg, db) && u < |db.users| && credits > 0
    ensures var out := Apply(cfg, db, MakeDeposit(u, key, credits));
            && Inv(cfg, out) && out.users == db.users && db.deposits <= out.deposits && Deposited(out, key)
            && (out.deposits == db.deposits || out.deposits == db.deposits + [Deposit(u, key, credits)])
  {
    assert |db.users| == |db.accounts|;
    hide Apply, MoneyOk, LifecycleOk, LedgerOk, ReferralOk, StatsOk, EarningsOk;
    ApplyKeeps(cfg, db, MakeDeposit(u, key, credits));
    ApplyAppends(cfg, db, MakeDeposit(u, key, credits));
    DepositCommits(cfg, db, u, key, credits);
  }

  /** One log's deposit is on record if its sender is registered, and nothing else was deposited. */
  ghost predicate LogCredited(n: Network, db: Db, l: Log, out: Db) {
    && out.users == db.users && db.deposits <= out.deposits
    && (Worth(n, l) > 0 && l.from in db.users ==> Deposited(out, KeyOf(n, l)))
    && (out.deposits == db.deposits
        || exists u: UserId :: u < |db.users| && db.users[u] == l.from && Worth(n, l) > 0
                       && out.deposits == db.deposits + [Deposit(u, KeyOf(n, l), Worth(n, l))])
  }

  lemma ProcessCredits(cfg: Config, n: Network, db: Db, l: Log)
    requires ValidConfig(cfg) && Inv(cfg, db)
    ensures Inv(cfg, Process(cfg, n, db, l)) && LogCredited(n, db, l, Process(cfg, n, db, l))
  {
    hide Apply, Worth, Inv, ValidConfig, IndexIn, Deposited, KeyOf;
    var user := IndexIn(db.users, l.from);
    if Worth(n, l) > 0 && user.Some? {
      var u := user.value;
      DepositCredits(cfg, db, u, KeyOf(n, l), Worth(n, l));
      assert u < |db.users| && db.users[u] == l.from;
    }
  }

  lemma ProcessKeepsSound(cfg: Config, n: Network, chain: Chain, s: State, out: State)
    requires ValidConfig(cfg) && ScanInv(cfg, n, chain, s) && Next(cfg, n, chain, s, ProcessLog) == Some(out)
    ensures Sound(n, chain, out)
  {
    hide Inv, CreditOk, Process, Worth;
    var logs := LogsFrom(chain, s.scan.first, s.scan.last);
    var l := logs[s.scan.done];
    ProcessCredits(cfg, n, s.db, l);
    assert out.db == Process(cfg, n, s.db, l);
    forall i | 0 <= i < |out.db.deposits| ensures Genuine(n, chain, out, out.db.deposits[i]) {
      if i < |s.db.deposits| {
        StaysGenuine(n, chain, s, out, s.db.deposits[i]);
      } else {
        LogsAreOnChain(chain, s.scan.first, s.scan.last, s.scan.done);
        var b, k :| s.scan.first <= b <= s.scan.last && 0 <= k < |chain(b)| && chain(b)[k] == l;
        assert n.start < b <= Reached(n, out);
      }
    }
  }

  lemma ProcessKeeps(cfg: Config, n: Network, chain: Chain, s: State)
    requires ValidConfig(cfg) && ScanInv(cfg, n, chain, s)
    ensures ScanInv(cfg, n, chain, Advance(cfg, n, chain, s, ProcessLog))
  {
    hide Inv, Sound, Process, Due;
    var next := Next(cfg, n, chain, s, ProcessLog);
    if next.Some? {
      var out := next.value;
      var logs := LogsFrom(chain, s.scan.first, s.scan.last);
      var done := s.scan.done;
      ProcessCredits(cfg, n, s.db, logs[done]);
      ProcessKeepsSound(cfg, n, chain, s, out);
      StaysCredited(n, s, out, LogsFrom(chain, n.start + 1, s.cursor.value));
      StaysCredited(n, s, out, logs[..done]);
      assert logs[..done + 1] == logs[..done] + [logs[done]];
      DueIsRegistered(n, s);
    }
  }

  lemma DueIsRegistered(n: Network, s: State)
    requires s.known.Some? ==> s.known.value <= s.db.users
    ensures s.known.Some? ==> forall l: Log | Due(n, s.known.value, l) :: Worth(n, l) > 0 && l.from in s.db.users
  {
  }

  lemma AllSplit(n: Network, s: State, a: seq<Log>, b: seq<Log>)
    requires AllCredited(n, s, a) && AllCredited(n, s, b)
    ensures AllCredited(n, s, a + b)
  {
    hide Due, Deposited, KeyOf;
  }

  lemma WriteCursorKeeps(cfg: Config, n: Network, chain: Chain, s: State)
    requires ScanInv(cfg, n, chain, s)
    ensures ScanInv(cfg, n, chain, Advance(cfg, n, chain, s, WriteCursor))
  {
    hide Inv, AllCredited, LogsFrom, Genuine;
    var next := Next(cfg, n, chain, s, WriteCursor);
    if next.Some? {
      var out := next.value;
      var logs := LogsFrom(chain, s.scan.first, s.scan.last);
      assert logs[..s.scan.done] == logs;
      LogsSplit(chain, n.start + 1, s.cursor.value, s.scan.last);
      AllSplit(n, s, LogsFrom(chain, n.start + 1, s.cursor.value), logs);
      StaysCredited(n, s, out, LogsFrom(chain, n.start + 1, s.cursor.value) + logs);
      hide Sound;
      StaysSound(n, chain, s, out);
    }
  }

  lemma TickMoves(cfg: Config, n: Network, chain: Chain, s: State, latest: nat)
    requires ValidNetwork(n) && (s.cursor.None? ==> s.scan == Idle && s.ranges == [])
    ensures var out := Advance(cfg, n, chain, s, Tick(latest));
            out == s
            || (out == s.(tip := out.tip, cursor := out.cursor, scan := out.scan, known := out.known)
                && s.scan == Idle && s.tip <= out.tip
                && out.cursor == Some(if s.cursor.Some? then s.cursor.value else n.start)
                && (if out.scan == Idle then out.known == s.known
                    else out.scan.Scanning? && out.scan.done == 0 && out.scan.first == out.cursor.value + 1
                         && out.scan.first <= out.scan.last <= out.tip && out.scan.last - out.scan.first < n.range
                         && out.known == if s.known.Some? then s.known else Some(s.db.users)))
  {
  }

  lemma TickCursor(cfg: Config, n: Network, chain: Chain, s: State, latest: nat)
    requires ValidNetwork(n) && CursorOk(n, s)
    ensures CursorOk(n, Advance(cfg, n, chain, s, Tick(latest)))
    ensures Reached(n, s) <= Reached(n, Advance(cfg, n, chain, s, Tick(latest)))
  {
    hide Advance;
    TickMoves(cfg, n, chain, s, latest);
  }

  lemma TickCredit(cfg: Config, n: Network, chain: Chain, s: State, latest: nat)
    requires ValidNetwork(n) && CursorOk(n, s) && CreditOk(n, chain, s)
    ensures CreditOk(n, chain, Advance(cfg, n, chain, s, Tick(latest)))
  {
    TickMoves(cfg, n, chain, s, latest);
    hide Advance, Due, Deposited, Reached;
    var out := Advance(cfg, n, chain, s, Tick(latest));
    if out != s {
      if s.known == out.known && s.cursor.Some? {
        StaysCredited(n, s, out, LogsFrom(chain, n.start + 1, s.cursor.value));
      } else {
        assert out.cursor == Some(n.start);
        assert LogsFrom(chain, n.start + 1, n.start) == [];
      }
    }
  }

  lemma StaysSound(n: Network, chain: Chain, s: State, out: State)
    requires Sound(n, chain, s) && out.db == s.db && Reached(n, s) <= Reached(n, out)
    ensures Sound(n, chain, out)
  {
    hide Reached, Genuine;
    forall i | 0 <= i < |out.db.deposits| ensures Genuine(n, chain, out, out.db.deposits[i]) {
      StaysGenuine(n, chain, s, out, s.db.deposits[i]);
    }
  }

  lemma TickKeeps(cfg: Config, n: Network, chain: Chain, s: State, latest: nat)
    requires ValidNetwork(n) && ScanInv(cfg, n, chain, s)
    ensures ScanInv(cfg, n, chain, Advance(cfg, n, chain, s, Tick(latest)))
  {
    hide Inv, Advance, CreditOk, Sound, Reached;
    TickMoves(cfg, n, chain, s, latest);
    TickCursor(cfg, n, chain, s, latest);
    TickCredit(cfg, n, chain, s, latest);
    StaysSound(n, chain, s, Advance(cfg, n, chain, s, Tick(latest)));
  }

  lemma CrashKeeps(cfg: Config, n: Network, chain: Chain, s: State)
    requires ScanInv(cfg, n, chain, s)
    ensures ScanInv(cfg, n, chain, Advance(cfg, n, chain, s, Crash))
  {
    hide Inv, Sound, AllCredited;
    var out := Advance(cfg, n, chain, s, Crash);
    if s.cursor.Some? {
      StaysCredited(n, s, out, LogsFrom(chain, n.start + 1, s.cursor.value));
    }
    StaysSound(n, chain, s, out);
  }

  lemma AdvanceKeeps(cfg: Config, n: Network, chain: Chain, s: State, m: Move)
    requires ValidConfig(cfg) && ValidNetwork(n) && ScanInv(cfg, n, chain, s)
    ensures ScanInv(cfg, n, chain, Advance(cfg, n, chain, s, m))
  {
    hide ScanInv;
    if m.Other? {
      if Foreign(n, m.step.action) {
        OtherKeeps(cfg, n, chain, s, m.step);
      }
    } else {
      hide Advance;
      match m
      case Tick(latest) => TickKeeps(cfg, n, chain, s, latest);
      case ProcessLog => ProcessKeeps(cfg, n, chain, s);
      case WriteCursor => WriteCursorKeeps(cfg, n, chain, s);
      case Crash => CrashKeeps(cfg, n, chain, s);
    }
  }

  lemma {:induction false} ExecuteKeeps(cfg: Config, n: Network, chain: Chain, moves: seq<Move>)
    requires ValidConfig(cfg) && ValidNetwork(n)
    ensures ScanInv(cfg, n, chain, Execute(cfg, n, chain, moves))
  {
    hide ScanInv, Advance;
    if moves == [] {
      StartHolds(cfg, n, chain);
    } else {
      ExecuteKeeps(cfg, n, chain, moves[..|moves| - 1]);
      AdvanceKeeps(cfg, n, chain, Execute(cfg, n, chain, moves[..|moves| - 1]), moves[|moves| - 1]);
    }
  }

  lemma StartHolds(cfg: Config, n: Network, chain: Chain)
    ensures ScanInv(cfg, n, chain, START)
  {
    hide Inv;
    EmptyHolds(cfg);
  }

  // ---------------------------------------------------------------------------------------------
  // Theorems

  /** Completed ranges start after the start block, follow one another without gap or overlap, and stay confirmed. */
  lemma RangesAreContiguous(cfg: Config, n: Network, chain: Chain, moves: seq<Move>)
    requires ValidConfig(cfg) && ValidNetwork(n)
    ensures var s := Execute(cfg, n, chain, moves);
            && (s.ranges != [] ==> s.ranges[0].0 == n.start + 1 && s.cursor == Some(s.ranges[|s.ranges| - 1].1))
            && (forall i | 0 < i < |s.ranges| :: s.ranges[i].0 == s.ranges[i - 1].1 + 1)
            && (forall i | 0 <= i < |s.ranges| ::
                  s.ranges[i].0 <= s.ranges[i].1 <= s.tip && s.ranges[i].1 - s.ranges[i].0 < n.range)
            && (s.scan.Scanning? ==> s.scan.last <= s.tip)
  {
    hide Execute, Inv, CreditOk, Sound;
    ExecuteKeeps(cfg, n, chain, moves);
  }

  /** The greatest block number the node has reported to a tick. */
  function GreatestLatest(moves: seq<Move>): nat {
    if moves == [] then 0
    else
      var before := GreatestLatest(moves[..|moves| - 1]);
      var last := moves[|moves| - 1];
      if last.Tick? && last.latest > before then last.latest else before
  }

  lemma TipMoves(cfg: Config, n: Network, chain: Chain, s: State, m: Move)
    ensures var out := Advance(cfg, n, chain, s, m);
            out.tip == s.tip || (m.Tick? && out.tip > s.tip && out.tip + n.confirmations == m.latest)
  {
    hide Take, Process, LogsFrom;
  }

  lemma {:induction false} TipIsConfirmed(cfg: Config, n: Network, chain: Chain, moves: seq<Move>)
    ensures var tip := Execute(cfg, n, chain, moves).tip;
            tip == 0 || tip + n.confirmations <= GreatestLatest(moves)
  {
    hide Advance;
    if moves != [] {
      var last := |moves| - 1;
      TipIsConfirmed(cfg, n, chain, moves[..last]);
      TipMoves(cfg, n, chain, Execute(cfg, n, chain, moves[..last]), moves[last]);
    }
  }

  /** Nothing is scanned before it has the configured confirmations under the newest block reported. */
  lemma ScansAreConfirmed(cfg: Config, n: Network, chain: Chain, moves: seq<Move>)
    requires ValidConfig(cfg) && ValidNetwork(n)
    ensures var s := Execute(cfg, n, chain, moves);
            && (forall i | 0 <= i < |s.ranges| :: s.ranges[i].1 + n.confirmations <= GreatestLatest(moves))
            && (s.scan.Scanning? ==> s.scan.last + n.confirmations <= GreatestLatest(moves))
  {
    hide Execute, Inv, CreditOk, Sound;
    ExecuteKeeps(cfg, n, chain, moves);
    TipIsConfirmed(cfg, n, chain, moves);
    var s := Execute(cfg, n, chain, moves);
    RangesArePositive(n, s);
  }

  lemma {:induction false} RangesArePositive(n: Network, s: State)
    requires CursorOk(n, s)
    ensures forall i | 0 <= i < |s.ranges| :: 0 < s.ranges[i].1
    ensures s.scan.Scanning? ==> 0 < s.scan.last
  {
    forall i | 0 <= i < |s.ranges| ensures 0 < s.ranges[i].1 {
      if i > 0 {
        assert s.ranges[i].0 == s.ranges[i - 1].1 + 1;
      }
    }
  }

  /** Every credited log of this network is on a confirmed block after the start block. */
  lemma CreditsAreConfirmed(cfg: Config, n: Network, chain: Chain, moves: seq<Move>, d: nat)
    requires ValidConfig(cfg) && ValidNetwork(n)
    requires d < |Execute(cfg, n, chain, moves).db.deposits|
             && Execute(cfg, n, chain, moves).db.deposits[d].key.network == n.name
    ensures var deposit := Execute(cfg, n, chain, moves).db.deposits[d];
            exists b, i :: n.start < b && b + n.confirmations <= GreatestLatest(moves) && 0 <= i < |chain(b)|
                           && deposit.key == LogKey(n.name, chain(b)[i].txHash, chain(b)[i].index)
                           && deposit.credits == Worth(n, chain(b)[i])
  {
    hide Execute, Inv, CreditOk, Worth;
    ExecuteKeeps(cfg, n, chain, moves);
    TipIsConfirmed(cfg, n, chain, moves);
    var s := Execute(cfg, n, chain, moves);
    assert Genuine(n, chain, s, s.db.deposits[d]);
  }

  /** An idle scanner starts the next range exactly when confirmed blocks lie behind the cursor, and cuts it to length. */
  lemma TickStarts(cfg: Config, n: Network, chain: Chain, s: State, latest: nat)
    requires s.scan == Idle
    ensures var cursor := if s.cursor.Some? then s.cursor.value else n.start;
            var out := Advance(cfg, n, chain, s, Tick(latest));
            && out.db == s.db && out.ranges == s.ranges
            && (if cursor + n.confirmations < latest
                then
                  var last := if cursor + n.range < latest - n.confirmations then cursor + n.range else latest - n.confirmations;
                  && out.scan == Scanning(cursor + 1, last, 0) && out.cursor == Some(cursor)
                  && out.known == (if s.known.Some? then s.known else Some(s.db.users))
                else
                  && out.scan == Idle && out.known == s.known
                  && out.cursor == if latest < n.confirmations then s.cursor else Some(cursor))
  {
  }

  /** A scan goes through every log of its blocks in order, then moves the cursor to its last block; a crash drops it. */
  lemma ScanSteps(cfg: Config, n: Network, chain: Chain, s: State)
    requires s.scan.Scanning?
    ensures var logs := LogsFrom(chain, s.scan.first, s.scan.last);
            var done := s.scan.done;
            && Advance(cfg, n, chain, s, ProcessLog)
               == (if done < |logs| then s.(db := Process(cfg, n, s.db, logs[done]), scan := s.scan.(done := done + 1)) else s)
            && Advance(cfg, n, chain, s, WriteCursor)
               == (if done >= |logs|
                   then s.(cursor := Some(s.scan.last), ranges := s.ranges + [(s.scan.first, s.scan.last)], scan := Idle) else s)
            && Advance(cfg, n, chain, s, Crash) == s.(scan := Idle)
  {
  }

  /** A log is worth Credits exactly when it is a transfer of a configured token, not a mint, and pays for one. */
  lemma WorthIs(n: Network, l: Log)
    ensures if l.contract in n.tokens && l.wellFormed && !l.zeroFrom
            then
              var t := n.tokens[l.contract];
              Worth(n, l) * Pow10(t.decimals) <= l.amount * t.creditsPerToken < (Worth(n, l) + 1) * Pow10(t.decimals)
            else Worth(n, l) == 0
  {
    if l.contract in n.tokens {
      assert 0 * n.tokens[l.contract].creditsPerToken == 0;
    }
  }

  function Keyed(key: LogKey): Deposit -> int {
    (d: Deposit) => if d.key == key then 1 else 0
  }

  /** Whatever crashes and rescans happen, a log is credited at most once, and only if it is on the chain. */
  lemma CreditedAtMostOnce(cfg: Config, n: Network, chain: Chain, moves: seq<Move>, key: LogKey)
    requires ValidConfig(cfg) && ValidNetwork(n)
    ensures var s := Execute(cfg, n, chain, moves);
            && Sum(s.db.deposits, Keyed(key)) <= 1
            && forall i | 0 <= i < |s.db.deposits| :: Genuine(n, chain, s, s.db.deposits[i])
  {
    ExecuteKeeps(cfg, n, chain, moves);
    var s := Execute(cfg, n, chain, moves);
    if d :| 0 <= d < |s.db.deposits| && s.db.deposits[d].key == key {
      SumOnly(s.db.deposits, d, Keyed(key));
    } else {
      SumZero(s.db.deposits, Keyed(key));
    }
  }

  /**
   A log at or below the cursor, worth at least one Credit and sent by a user registered before the first scan, is
   credited exactly once.
   */
  lemma PassedLogsAreCredited(cfg: Config, n: Network, chain: Chain, moves: seq<Move>, b: nat, k: nat)
    requires ValidConfig(cfg) && ValidNetwork(n)
    requires var s := Execute(cfg, n, chain, moves);
             s.cursor.Some? && s.known.Some? && n.start < b <= s.cursor.value && k < |chain(b)|
             && Worth(n, chain(b)[k]) > 0 && chain(b)[k].from in s.known.value
    ensures Sum(Execute(cfg, n, chain, moves).db.deposits, Keyed(KeyOf(n, chain(b)[k]))) == 1
    ensures var deposits := Execute(cfg, n, chain, moves).db.deposits;
            exists d :: 0 <= d < |deposits| && deposits[d].key == LogKey(n.name, chain(b)[k].txHash, chain(b)[k].index)
                        && forall e | 0 <= e < |deposits| && e != d :: deposits[e].key != deposits[d].key
  {
    ExecuteKeeps(cfg, n, chain, moves);
    var s := Execute(cfg, n, chain, moves);
    DueIsDeposited(cfg, n, chain, s, b, k);
    var key := KeyOf(n, chain(b)[k]);
    assert key == LogKey(n.name, chain(b)[k].txHash, chain(b)[k].index);
    hide *;
    OneDeposit(s.db, key);
  }

  /** A deposit under a key that no other has. */
  lemma OneDeposit(db: Db, key: LogKey)
    requires Deposited(db, key)
    requires forall i, j | 0 <= i < j < |db.deposits| :: db.deposits[i].key != db.deposits[j].key
    ensures Sum(db.deposits, Keyed(key)) == 1
    ensures exists d :: 0 <= d < |db.deposits| && db.deposits[d].key == key
                        && forall e | 0 <= e < |db.deposits| && e != d :: db.deposits[e].key != db.deposits[d].key
  {
    var d :| 0 <= d < |db.deposits| && db.deposits[d].key == key;
    SumOnly(db.deposits, d, Keyed(key));
  }

  lemma DueIsDeposited(cfg: Config, n: Network, chain: Chain, s: State, b: nat, k: nat)
    requires ScanInv(cfg, n, chain, s) && s.cursor.Some? && s.known.Some? && n.start < b <= s.cursor.value
    requires k < |chain(b)| && Due(n, s.known.value, chain(b)[k])
    ensures Deposited(s.db, KeyOf(n, chain(b)[k]))
    ensures forall i, j | 0 <= i < j < |s.db.deposits| :: s.db.deposits[i].key != s.db.deposits[j].key
  {
    hide MoneyOk, LifecycleOk, LedgerOk, StatsOk, EarningsOk, Due, Sound, CursorOk;
    LogsHold(chain, n.start + 1, s.cursor.value, b, k);
  }

  /** Such a deposit carries the log's own worth and sender when no other log of the chain has its key. */
  lemma CreditIsTheLogsWorth(cfg: Config, n: Network, chain: Chain, moves: seq<Move>, b: nat, k: nat, d: nat)
    requires ValidConfig(cfg) && ValidNetwork(n) && k < |chain(b)|
    requires forall c, i | 0 <= i < |chain(c)| && KeyOf(n, chain(c)[i]) == KeyOf(n, chain(b)[k]) :: chain(c)[i] == chain(b)[k]
    requires d < |Execute(cfg, n, chain, moves).db.deposits|
    requires Execute(cfg, n, chain, moves).db.deposits[d].key == KeyOf(n, chain(b)[k])
    ensures var s := Execute(cfg, n, chain, moves);
            var deposit := s.db.deposits[d];
            && deposit.credits == Worth(n, chain(b)[k])
            && deposit.user < |s.db.users| && s.db.users[deposit.user] == chain(b)[k].from
  {
    ExecuteKeeps(cfg, n, chain, moves);
    var s := Execute(cfg, n, chain, moves);
    assert Genuine(n, chain, s, s.db.deposits[d]);
  }
}
