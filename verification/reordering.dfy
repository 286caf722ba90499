// The layered order means what the base sequence means: every pair it inverts
// is independent, as long as neither pays a fee into an account of the other.
module Reordering {
  import opened Blocks
  import opened Seqs
  import opened WorldStates
  import opened Execution
  import opened Ordering
  import opened Parallel
  import opened SpeculativeCommit

  // What executing transaction `i` on some accounts does, if it can be executed.
  type Runner = (Accounts, nat) -> Option<Effect>

  // Transactions with their declared keys, and the fee each pays for its effect
  // into an account outside its keys.
  datatype Workload = Workload(run: Runner, access: Access, payee: nat -> Address, fee: (nat, Effect) -> nat)

  // Transaction `i` reads and writes inside its declared keys only.
  ghost predicate Declared(run: Runner, keys: seq<Address>, i: nat) {
    && (forall s :: run(s, i).Some? ==> run(s, i).value.changes.Keys <= Elems(keys))
    && forall s, s' {:trigger run(s, i), run(s', i)} :: SameOn(s, s', Elems(keys)) ==> run(s', i) == run(s, i)
  }

  ghost predicate AllDeclared(run: Runner, access: Access) {
    forall i {:trigger Declared(run, access[i], i)} :: 0 <= i < |access| ==> Declared(run, access[i], i)
  }

  function Paid(s: Accounts, payee: Address, fee: nat): Accounts {
    Put(s, payee, CreditOne(Get(s, payee), fee))
  }

  // Execution proper, then the fee.
  function Next(w: Workload, s: Accounts, i: nat): Accounts {
    match w.run(s, i)
    case Some(e) => Paid(Committed(s, e.changes), w.payee(i), w.fee(i, e))
    case None => s
  }

  // The accounts after running an order.
  function RunAll(w: Workload, s: Accounts, order: seq<nat>): Accounts
    decreases |order|
  {
    if order == [] then s else RunAll(w, Next(w, s, order[0]), order[1..])
  }

  // What each transaction of an order did.
  function Effects(w: Workload, s: Accounts, order: seq<nat>): map<nat, Option<Effect>>
    decreases |order|
  {
    if order == [] then map[] else Effects(w, Next(w, s, order[0]), order[1..])[order[0] := w.run(s, order[0])]
  }

  // Running one way is running the other.
  ghost predicate SameRun(w: Workload, s: Accounts, a: seq<nat>, b: seq<nat>) {
    RunAll(w, s, a) == RunAll(w, s, b) && Effects(w, s, a) == Effects(w, s, b)
  }

  /* ---------- two independent transactions ---------- */

  // Transaction `x` can pay into an account transaction `y` declares.
  ghost predicate PaysInto(w: Workload, x: nat, y: nat) {
    Touches(w.access, y, w.payee(x)) && exists e {:trigger w.fee(x, e)} :: w.fee(x, e) > 0
  }

  ghost predicate Apart(w: Workload, x: nat, y: nat) {
    !Conflict(w.access, x, y) && !PaysInto(w, x, y) && !PaysInto(w, y, x)
  }

  // At one address, a run acts on what was there alone.
  function ActAt(w: Workload, e: Option<Effect>, i: nat, v: Option<AccountState>, a: Address): Option<AccountState> {
    if e.None? then v else
      var u := if a in e.value.changes then CommitOne(v, e.value.changes[a]) else v;
      if a == w.payee(i) then CreditOne(u, w.fee(i, e.value)) else u
  }

  lemma NextAt(w: Workload, s: Accounts, i: nat, a: Address)
    ensures Get(Next(w, s, i), a) == ActAt(w, w.run(s, i), i, Get(s, a), a)
  {
    if w.run(s, i).Some? { CommittedAt(s, w.run(s, i).value.changes, a); }
  }

  // It does nothing at an account of a transaction apart from it.
  lemma ActsElsewhere(w: Workload, s: Accounts, x: nat, y: nat, v: Option<AccountState>, a: Address)
    requires AllDeclared(w.run, w.access) && x < |w.access| && Apart(w, x, y) && Touches(w.access, y, a)
    ensures ActAt(w, w.run(s, x), x, v, a) == v
  {
    assert Declared(w.run, w.access[x], x);
    assert !Touches(w.access, x, a);
  }

  lemma UntouchedByOther(w: Workload, s: Accounts, x: nat, y: nat)
    requires AllDeclared(w.run, w.access) && x < |w.access| && y < |w.access| && Apart(w, x, y)
    ensures w.run(Next(w, s, x), y) == w.run(s, y)
  {
    assert Declared(w.run, w.access[y], y);
    forall a | a in Elems(w.access[y]) ensures Get(Next(w, s, x), a) == Get(s, a) {
      assert Touches(w.access, y, a);
      NextAt(w, s, x, a);
      ActsElsewhere(w, s, x, y, Get(s, a), a);
    }
    assert SameOn(s, Next(w, s, x), Elems(w.access[y]));
  }

  // Credits commute, saturated or not.
  lemma CreditsCommute(v: Option<AccountState>, f: nat, g: nat)
    ensures CreditOne(CreditOne(v, f), g) == CreditOne(CreditOne(v, g), f)
  {
  }

  lemma ActsCommute(w: Workload, s: Accounts, t: Accounts, x: nat, y: nat, v: Option<AccountState>, a: Address)
    requires AllDeclared(w.run, w.access) && x < |w.access| && y < |w.access| && Apart(w, x, y)
    ensures ActAt(w, w.run(t, y), y, ActAt(w, w.run(s, x), x, v, a), a)
            == ActAt(w, w.run(s, x), x, ActAt(w, w.run(t, y), y, v, a), a)
  {
    var ex, ey := w.run(s, x), w.run(t, y);
    assert Declared(w.run, w.access[x], x) && Declared(w.run, w.access[y], y);
    if Touches(w.access, x, a) {
      assert Apart(w, y, x);
      ActsElsewhere(w, t, y, x, v, a);
      ActsElsewhere(w, t, y, x, ActAt(w, ex, x, v, a), a);
    } else if Touches(w.access, y, a) {
      ActsElsewhere(w, s, x, y, v, a);
      ActsElsewhere(w, s, x, y, ActAt(w, ey, y, v, a), a);
    } else if ex.Some? && ey.Some? {
      CreditsCommute(v, w.fee(x, ex.value), w.fee(y, ey.value));
    }
  }

  lemma NextCommutes(w: Workload, s: Accounts, x: nat, y: nat)
    requires AllDeclared(w.run, w.access) && x < |w.access| && y < |w.access| && Apart(w, x, y)
    ensures Next(w, Next(w, s, x), y) == Next(w, Next(w, s, y), x)
  {
    assert Apart(w, y, x);
    UntouchedByOther(w, s, x, y);
    UntouchedByOther(w, s, y, x);
    var sx, sy := Next(w, s, x), Next(w, s, y);
    forall a ensures Get(Next(w, sx, y), a) == Get(Next(w, sy, x), a) {
      NextAt(w, sx, y, a);
      NextAt(w, sy, x, a);
      NextAt(w, s, x, a);
      NextAt(w, s, y, a);
      ActsCommute(w, s, s, x, y, Get(s, a), a);
    }
    SameAccounts(Next(w, sx, y), Next(w, sy, x));
  }

  /* ---------- moving one transaction ---------- */

  ghost predicate ApartFrom(w: Workload, x: nat, b: seq<nat>) {
    forall y :: y in b ==> y < |w.access| && y != x && Apart(w, x, y)
  }

  lemma SwapFirst(w: Workload, s: Accounts, x: nat, y: nat, rest: seq<nat>)
    requires AllDeclared(w.run, w.access) && x < |w.access| && y < |w.access| && x != y && Apart(w, x, y)
    ensures SameRun(w, s, [x] + ([y] + rest), [y] + ([x] + rest))
  {
    NextCommutes(w, s, x, y);
    assert Apart(w, y, x);
    UntouchedByOther(w, s, x, y);
    UntouchedByOther(w, s, y, x);
    var a, b := [x] + ([y] + rest), [y] + ([x] + rest);
    assert a[1..] == [y] + rest && ([y] + rest)[1..] == rest;
    assert b[1..] == [x] + rest && ([x] + rest)[1..] == rest;
    var tail: map<nat, Option<Effect>> := Effects(w, Next(w, Next(w, s, x), y), rest);
    var ex: map<nat, Option<Effect>>, ey: map<nat, Option<Effect>> := tail[x := w.run(s, x)], tail[y := w.run(s, y)];
    assert Effects(w, s, a) == ey[x := w.run(s, x)];
    assert Effects(w, s, b) == ex[y := w.run(s, y)];
  }

  lemma {:induction false} MoveLast(w: Workload, s: Accounts, x: nat, b: seq<nat>)
    requires AllDeclared(w.run, w.access) && x < |w.access| && ApartFrom(w, x, b)
    ensures SameRun(w, s, [x] + b, b + [x])
    decreases |b|
  {
    if b == [] {
      assert [x] + b == b + [x];
    } else {
      var y, rest := b[0], b[1..];
      assert y in b && forall z :: z in rest ==> z in b;
      SwapFirst(w, s, x, y, rest);
      MoveLast(w, Next(w, s, y), x, rest);
      assert [x] + b == [x] + ([y] + rest);
      var moved := [y] + ([x] + rest);
      assert moved[1..] == [x] + rest;
      assert b + [x] == [y] + (rest + [x]) && (b + [x])[1..] == rest + [x];
    }
  }

  lemma {:induction false} SameAfterPrefix(w: Workload, s: Accounts, prefix: seq<nat>, a: seq<nat>, b: seq<nat>)
    requires SameRun(w, RunAll(w, s, prefix), a, b)
    ensures SameRun(w, s, prefix + a, prefix + b)
    decreases |prefix|
  {
    if prefix == [] {
      assert prefix + a == a && prefix + b == b;
    } else {
      SameAfterPrefix(w, Next(w, s, prefix[0]), prefix[1..], a, b);
      assert (prefix + a)[1..] == prefix[1..] + a && (prefix + b)[1..] == prefix[1..] + b;
    }
  }

  lemma SameBeforeLast(w: Workload, s: Accounts, a: seq<nat>, b: seq<nat>, x: nat)
    requires SameRun(w, s, a, b) && x !in a && x !in b
    ensures SameRun(w, s, a + [x], b + [x])
  {
    RunThen(w, s, a, x);
    RunThen(w, s, b, x);
  }

  lemma {:induction false} RunThen(w: Workload, s: Accounts, a: seq<nat>, x: nat)
    requires x !in a
    ensures RunAll(w, s, a + [x]) == Next(w, RunAll(w, s, a), x)
    ensures Effects(w, s, a + [x]) == Effects(w, s, a)[x := w.run(RunAll(w, s, a), x)]
    decreases |a|
  {
    if a == [] {
      assert a + [x] == [x] && [x][1..] == [];
    } else {
      assert (a + [x])[1..] == a[1..] + [x] && (a + [x])[0] == a[0];
      RunThen(w, Next(w, s, a[0]), a[1..], x);
    }
  }

  /* ---------- orders that invert only pairs apart ---------- */

  function Base(n: nat): (q: seq<nat>)
    ensures |q| == n && forall i :: 0 <= i < n ==> q[i] == i
  {
    seq(n, i => i)
  }

  // The first `n` transactions, once each.
  ghost predicate Lists(order: seq<nat>, n: nat) {
    (forall x :: x in order <==> 0 <= x < n) && Distinct(order)
  }

  ghost predicate InvertsApart(w: Workload, order: seq<nat>) {
    forall a, b :: 0 <= a < b < |order| && order[b] < order[a] ==> Apart(w, order[a], order[b])
  }

  // Taking the last transaction out of an order.
  lemma WithoutLast(order: seq<nat>, n: nat) returns (p: nat)
    requires 0 < n && Lists(order, n)
    ensures p < |order| && order[p] == n - 1
    ensures Lists(order[..p] + order[p + 1..], n - 1)
  {
    assert n - 1 in order;
    p := IndexOf(order, n - 1);
    var rest := order[..p] + order[p + 1..];
    forall i | 0 <= i < |rest| ensures rest[i] == order[if i < p then i else i + 1] {}
    forall x ensures x in rest <==> 0 <= x < n - 1 {
      if x in rest {
        var i := IndexOf(rest, x);
        assert rest[i] in order;
      }
      if 0 <= x < n - 1 {
        assert x in order;
        var i := IndexOf(order, x);
        assert rest[if i < p then i else i - 1] == x;
      }
    }
  }

  lemma CutInvertsApart(w: Workload, order: seq<nat>, p: nat)
    requires p < |order| && InvertsApart(w, order)
    ensures InvertsApart(w, order[..p] + order[p + 1..])
  {
    var rest := order[..p] + order[p + 1..];
    forall i | 0 <= i < |rest| ensures rest[i] == order[if i < p then i else i + 1] {}
  }

  // What the last transaction has been moved before, it is apart from.
  lemma LastIsApart(w: Workload, order: seq<nat>, n: nat, p: nat)
    requires 0 < n <= |w.access| && Lists(order, n) && InvertsApart(w, order) && p < |order| && order[p] == n - 1
    ensures ApartFrom(w, n - 1, order[p + 1..])
  {
    var later := order[p + 1..];
    forall y | y in later ensures y < |w.access| && y != n - 1 && Apart(w, n - 1, y) {
      var i := IndexOf(later, y);
      assert order[p + 1 + i] == y && y in order;
    }
  }

  // Running any order that inverts only pairs apart is running the base sequence.
  lemma {:induction false} OrderIsImmaterial(w: Workload, s: Accounts, order: seq<nat>, n: nat)
    requires n <= |w.access| && AllDeclared(w.run, w.access) && Lists(order, n) && InvertsApart(w, order)
    ensures SameRun(w, s, order, Base(n))
    decreases n
  {
    if n == 0 {
      NothingListed(order);
      assert order == Base(0);
    } else {
      var p := WithoutLast(order, n);
      LastIsApart(w, order, n, p);
      CutInvertsApart(w, order, p);
      MovedToEnd(w, s, order[..p], order[p + 1..], n - 1);
      AroundAt(order, p);
      BaseGrows(n);
      OrderIsImmaterial(w, s, order[..p] + order[p + 1..], n - 1);
      SameBeforeLast(w, s, order[..p] + order[p + 1..], Base(n - 1), n - 1);
    }
  }

  lemma NothingListed(order: seq<nat>)
    requires Lists(order, 0)
    ensures order == []
  {
    DistinctCount(order);
    assert Elems(order) == {};
  }

  lemma MovedToEnd(w: Workload, s: Accounts, before: seq<nat>, after: seq<nat>, x: nat)
    requires AllDeclared(w.run, w.access) && x < |w.access| && ApartFrom(w, x, after)
    ensures SameRun(w, s, before + ([x] + after), before + after + [x])
  {
    MoveLast(w, RunAll(w, s, before), x, after);
    SameAfterPrefix(w, s, before, [x] + after, after + [x]);
    assert before + (after + [x]) == before + after + [x];
  }

  lemma AroundAt(order: seq<nat>, p: nat)
    requires p < |order|
    ensures order == order[..p] + ([order[p]] + order[p + 1..])
  {
  }

  lemma BaseGrows(n: nat)
    requires n > 0
    ensures Base(n) == Base(n - 1) + [n - 1] == Base(n - 1) + ([n - 1] + []) && Base(n - 1) + [] == Base(n - 1)
  {
  }

  // Where layering turns a pair round, neither pays into the other's keys.
  ghost predicate PaymentsApart(w: Workload) {
    forall x, y {:trigger Round(w.access, x), Round(w.access, y)} ::
      0 <= x < y < |w.access| && Round(w.access, y) < Round(w.access, x) ==> !PaysInto(w, x, y) && !PaysInto(w, y, x)
  }

  lemma CanonicalLists(access: Access, order: seq<nat>)
    requires Canonical(access, order)
    ensures Lists(order, |access|)
  {
    forall a, b | 0 <= a < b < |order| ensures order[a] != order[b] {
      assert Earlier(access, order[a], order[b]);
    }
  }

  lemma CanonicalInvertsApart(w: Workload, order: seq<nat>)
    requires Canonical(w.access, order) && PaymentsApart(w)
    ensures InvertsApart(w, order)
  {
    forall a, b | 0 <= a < b < |order| && order[b] < order[a] ensures Apart(w, order[a], order[b]) {
      assert Earlier(w.access, order[a], order[b]);
      assert order[a] in order && Round(w.access, order[a]) < Round(w.access, order[b]);
      if Conflict(w.access, order[a], order[b]) { ConflictsKeepOrder(w.access, order, a, b); }
    }
  }

  // Reordering preserves meaning: for transactions that keep to their declared
  // keys, and pay no fee into an account of one they are turned round with, the
  // layered order leaves the accounts the base sequence leaves and every
  // transaction does the same.
  lemma LayeringPreservesMeaning(w: Workload, s: Accounts, order: seq<nat>)
    requires AllDeclared(w.run, w.access) && PaymentsApart(w) && Canonical(w.access, order)
    ensures SameRun(w, s, order, Base(|w.access|))
  {
    CanonicalLists(w.access, order);
    CanonicalInvertsApart(w, order);
    OrderIsImmaterial(w, s, order, |w.access|);
  }

  /* ---------- gas declared by an order ---------- */

  lemma {:induction false} DeclaredGasConcat(tagged: Tagged, a: seq<nat>, b: seq<nat>)
    requires Positions(tagged, a) && Positions(tagged, b)
    ensures Positions(tagged, a + b) && DeclaredGas(tagged, a + b) == DeclaredGas(tagged, a) + DeclaredGas(tagged, b)
    decreases |a|
  {
    if a == [] {
      assert a + b == b;
    } else {
      assert (a + b)[1..] == a[1..] + b;
      DeclaredGasConcat(tagged, a[1..], b);
    }
  }

  lemma InsertedGas(tagged: Tagged, before: seq<nat>, after: seq<nat>, x: nat)
    requires Positions(tagged, before) && Positions(tagged, after) && x < |tagged|
    ensures Positions(tagged, before + after) && Positions(tagged, before + ([x] + after))
    ensures DeclaredGas(tagged, before + ([x] + after)) == DeclaredGas(tagged, before + after) + tagged[x].1.gasLimit
  {
    DeclaredGasConcat(tagged, before, after);
    DeclaredGasConcat(tagged, [x], after);
    DeclaredGasConcat(tagged, before, [x] + after);
  }

  lemma GasWithout(tagged: Tagged, order: seq<nat>, p: nat)
    requires Positions(tagged, order) && p < |order|
    ensures Positions(tagged, order[..p] + order[p + 1..])
    ensures DeclaredGas(tagged, order) == DeclaredGas(tagged, order[..p] + order[p + 1..]) + tagged[order[p]].1.gasLimit
  {
    AroundAt(order, p);
    InsertedGas(tagged, order[..p], order[p + 1..], order[p]);
  }

  lemma GasOfBase(tagged: Tagged, n: nat)
    requires 0 < n <= |tagged|
    ensures DeclaredGas(tagged, Base(n)) == DeclaredGas(tagged, Base(n - 1)) + tagged[n - 1].1.gasLimit
  {
    BaseGrows(n);
    InsertedGas(tagged, Base(n - 1), [], n - 1);
  }

  lemma ListedPositions(tagged: Tagged, order: seq<nat>, n: nat)
    requires n <= |tagged| && Lists(order, n)
    ensures Positions(tagged, order)
  {
    assert forall i :: 0 <= i < |order| ==> order[i] in order;
  }

  lemma {:induction false} SameDeclaredGas(tagged: Tagged, order: seq<nat>, n: nat)
    requires n <= |tagged| && Lists(order, n)
    ensures Positions(tagged, order) && DeclaredGas(tagged, order) == DeclaredGas(tagged, Base(n))
    decreases n
  {
    ListedPositions(tagged, order, n);
    if n == 0 {
      NothingListed(order);
    } else {
      var p := WithoutLast(order, n);
      SameDeclaredGas(tagged, order[..p] + order[p + 1..], n - 1);
      GasWithout(tagged, order, p);
      GasOfBase(tagged, n);
    }
  }

  /* ---------- a block with room for all its gas ---------- */

  // What a transaction's receipt says of it, wherever it stands.
  datatype Did = Did(success: bool, gasUsed: nat, logs: nat)

  function DidOf(e: Option<Effect>): Option<Did> {
    match e
    case Some(f) => Some(Did(f.success, f.gasUsed, f.logs))
    case None => None
  }

  function Last(trace: Trace): Option<Effect> {
    if trace == [] then None else Some(trace[|trace| - 1].1)
  }

  // What each transaction of a block did, executed in this order under the
  // running gas rule.
  function Deeds(evm: Evm, ctx: BlockCtx, limit: nat, p: Progress, tagged: Tagged, order: seq<nat>): map<nat,
      Option<Did>>
    requires Positions(tagged, order)
    decreases |order|
  {
    if order == [] then map[] else
      var (miner, tx) := tagged[order[0]];
      Deeds(evm, ctx, limit, Step(evm, ctx, limit, p, miner, tx), tagged, order[1..])
        [order[0] := DidOf(Last(StepTrace(evm, ctx, limit, p, miner, tx)))]
  }

  function ProperRunner(evm: Evm, ctx: BlockCtx, tagged: Tagged): Runner {
    (s: Accounts, i: nat) => if i < |tagged| then evm(s, ctx, tagged[i].0, tagged[i].1) else None
  }

  // A miner that is among its own transaction's keys is rewarded inside them; any
  // other is paid outside.
  predicate OwnMiner(tagged: Tagged, access: Access, i: nat) {
    i < |tagged| && Touches(access, i, tagged[i].0)
  }

  function FeeOf(ctx: BlockCtx, tagged: Tagged, access: Access, i: nat, e: Effect): nat {
    if i < |tagged| && !OwnMiner(tagged, access, i) && e.gasUsed <= tagged[i].1.gasLimit
    then Fee(Tip(ctx, tagged[i].1), e.gasUsed) else 0
  }

  function BlockWork(evm: Evm, ctx: BlockCtx, tagged: Tagged, access: Access): Workload {
    Workload(
      (s: Accounts, i: nat) =>
        if OwnMiner(tagged, access, i) then Transact(evm, s, ctx, tagged[i].0, tagged[i].1) else ProperRunner(evm, ctx, tagged)(s, i),
      access,
      (i: nat) => if i < |tagged| then tagged[i].0 else 0,
      (i: nat, e: Effect) => FeeOf(ctx, tagged, access, i, e))
  }

  lemma BlockWorkIsDeclared(evm: Evm, ctx: BlockCtx, tagged: Tagged, access: Access)
    requires AllDeclared(ProperRunner(evm, ctx, tagged), access) && |access| == |tagged|
    ensures AllDeclared(BlockWork(evm, ctx, tagged, access).run, access)
  {
    var run := BlockWork(evm, ctx, tagged, access).run;
    forall i | 0 <= i < |access| ensures Declared(run, access[i], i) {
      assert Declared(ProperRunner(evm, ctx, tagged), access[i], i);
      if OwnMiner(tagged, access, i) { RewardIsDeclared(evm, ctx, tagged, access, i); }
    }
  }

  lemma RewardIsDeclared(evm: Evm, ctx: BlockCtx, tagged: Tagged, access: Access, i: nat)
    requires i < |access| && Declared(ProperRunner(evm, ctx, tagged), access[i], i) && OwnMiner(tagged, access, i)
    ensures Declared(BlockWork(evm, ctx, tagged, access).run, access[i], i)
  {
    var run, proper := BlockWork(evm, ctx, tagged, access).run, ProperRunner(evm, ctx, tagged);
    forall s | run(s, i).Some? ensures run(s, i).value.changes.Keys <= Elems(access[i]) {
      assert proper(s, i).Some?;
    }
    forall s, s' | SameOn(s, s', Elems(access[i])) ensures run(s', i) == run(s, i) {
      assert proper(s', i) == proper(s, i);
      assert Get(s', tagged[i].0) == Get(s, tagged[i].0);
    }
  }

  // One transaction of the block, reward and all.
  lemma BlockWorkStep(evm: Evm, ctx: BlockCtx, tagged: Tagged, access: Access, s: Accounts, i: nat)
    requires AllDeclared(ProperRunner(evm, ctx, tagged), access) && |access| == |tagged| && i < |tagged|
    requires GasBounded(evm)
    ensures var t := Transact(evm, s, ctx, tagged[i].0, tagged[i].1);
      && Next(BlockWork(evm, ctx, tagged, access), s, i) == (if t.None? then s else Committed(s, t.value.changes))
      && DidOf(BlockWork(evm, ctx, tagged, access).run(s, i)) == DidOf(t)
  {
    var w := BlockWork(evm, ctx, tagged, access);
    var t := Transact(evm, s, ctx, tagged[i].0, tagged[i].1);
    if t.Some? {
      forall a ensures Get(Next(w, s, i), a) == Get(Committed(s, t.value.changes), a) {
        NextAt(w, s, i, a);
        CommittedAt(s, t.value.changes, a);
        if !OwnMiner(tagged, access, i) { PaidOutside(evm, ctx, tagged, access, s, i); }
      }
      SameAccounts(Next(w, s, i), Committed(s, t.value.changes));
    }
  }

  // Outside the transaction's keys the reward is a credit.
  lemma PaidOutside(evm: Evm, ctx: BlockCtx, tagged: Tagged, access: Access, s: Accounts, i: nat)
    requires AllDeclared(ProperRunner(evm, ctx, tagged), access) && |access| == |tagged| && i < |tagged|
    requires GasBounded(evm)
    requires evm(s, ctx, tagged[i].0, tagged[i].1).Some? && !OwnMiner(tagged, access, i)
    ensures var e := evm(s, ctx, tagged[i].0, tagged[i].1).value;
      && tagged[i].0 !in e.changes
      && CommitOne(Get(s, tagged[i].0), Rewarded(Get(s, tagged[i].0), e.changes, tagged[i].0, Fee(Tip(ctx, tagged[i].1), e.gasUsed)))
         == CreditOne(Get(s, tagged[i].0), FeeOf(ctx, tagged, access, i, e))
  {
    var e := evm(s, ctx, tagged[i].0, tagged[i].1).value;
    assert Declared(ProperRunner(evm, ctx, tagged), access[i], i);
    assert ProperRunner(evm, ctx, tagged)(s, i).Some?;
    assert tagged[i].0 !in Elems(access[i]);
    RewardIsCredit(Get(s, tagged[i].0), e.changes, tagged[i].0, Fee(Tip(ctx, tagged[i].1), e.gasUsed));
  }

  function Briefed(effects: map<nat, Option<Effect>>): map<nat, Option<Did>> {
    map i | i in effects :: DidOf(effects[i])
  }

  lemma BriefedWith(effects: map<nat, Option<Effect>>, i: nat, e: Option<Effect>)
    ensures Briefed(effects[i := e]) == Briefed(effects)[i := DidOf(e)]
  {
  }

  // No transaction of the order is over the running budget at its turn.
  predicate NeverOver(evm: Evm, ctx: BlockCtx, limit: nat, p: Progress, tagged: Tagged, order: seq<nat>)
    requires Positions(tagged, order)
    decreases |order|
  {
    order != [] ==>
    var (miner, tx) := tagged[order[0]];
    && !OverBudget(p.block, tx, limit)
    && NeverOver(evm, ctx, limit, Step(evm, ctx, limit, p, miner, tx), tagged, order[1..])
  }

  // With room for all the declared gas, none is.
  lemma {:induction false} RoomyNeverOver(evm: Evm, ctx: BlockCtx, limit: nat, p: Progress, tagged: Tagged,
      order: seq<nat>)
    requires Positions(tagged, order) && GasBounded(evm)
    requires p.block.gasUsed + DeclaredGas(tagged, order) <= limit <= U64_MAX
    ensures NeverOver(evm, ctx, limit, p, tagged, order)
    decreases |order|
  {
    if order != [] {
      var (miner, tx) := tagged[order[0]];
      var next := Step(evm, ctx, limit, p, miner, tx);
      assert next.block.gasUsed <= p.block.gasUsed + tx.gasLimit;
      RoomyNeverOver(evm, ctx, limit, next, tagged, order[1..]);
    }
  }

  // A step within budget.
  lemma RoomyStep(evm: Evm, ctx: BlockCtx, limit: nat, p: Progress, tagged: Tagged, access: Access, i: nat)
    requires i < |tagged| && GasBounded(evm) && |access| == |tagged|
    requires AllDeclared(ProperRunner(evm, ctx, tagged), access)
    requires !OverBudget(p.block, tagged[i].1, limit)
    ensures var w := BlockWork(evm, ctx, tagged, access);
      var next := Step(evm, ctx, limit, p, tagged[i].0, tagged[i].1);
      && next.accounts == Next(w, p.accounts, i)
      && DidOf(Last(StepTrace(evm, ctx, limit, p, tagged[i].0, tagged[i].1))) == DidOf(w.run(p.accounts, i))
  {
    BlockWorkStep(evm, ctx, tagged, access, p.accounts, i);
  }

  lemma RunFirst(w: Workload, s: Accounts, order: seq<nat>)
    requires order != []
    ensures RunAll(w, s, order) == RunAll(w, Next(w, s, order[0]), order[1..])
    ensures Effects(w, s, order) == Effects(w, Next(w, s, order[0]), order[1..])[order[0] := w.run(s, order[0])]
  {
  }

  // Nothing deferred for the budget, a block is its workload.
  lemma {:induction false} RoomySequential(evm: Evm, ctx: BlockCtx, limit: nat, p: Progress, tagged: Tagged,
      access: Access, order: seq<nat>)
    requires Positions(tagged, order) && GasBounded(evm) && |access| == |tagged|
    requires AllDeclared(ProperRunner(evm, ctx, tagged), access)
    requires NeverOver(evm, ctx, limit, p, tagged, order)
    ensures RunSequential(evm, ctx, limit, p, tagged, order).accounts
            == RunAll(BlockWork(evm, ctx, tagged, access), p.accounts, order)
    ensures Deeds(evm, ctx, limit, p, tagged, order)
            == Briefed(Effects(BlockWork(evm, ctx, tagged, access), p.accounts, order))
    decreases |order|
  {
    if order != [] {
      var w := BlockWork(evm, ctx, tagged, access);
      var next := Step(evm, ctx, limit, p, tagged[order[0]].0, tagged[order[0]].1);
      RoomyStep(evm, ctx, limit, p, tagged, access, order[0]);
      RoomySequential(evm, ctx, limit, next, tagged, access, order[1..]);
      RunFirst(w, p.accounts, order);
      BriefedWith(Effects(w, next.accounts, order[1..]), order[0], w.run(p.accounts, order[0]));
    }
  }

  // A fee that transaction `x` may pay reaches a key of transaction `y`.
  ghost predicate FeeReaches(ctx: BlockCtx, tagged: Tagged, access: Access, x: nat, y: nat) {
    x < |tagged| && Tip(ctx, tagged[x].1) > 0 && tagged[x].1.gasLimit > 0 && Touches(access, y, tagged[x].0)
  }

  // Where layering turns a pair round, no fee of one reaches a key of the other.
  ghost predicate FeesApart(ctx: BlockCtx, tagged: Tagged, access: Access) {
    forall x, y {:trigger Round(access, x), Round(access, y)} ::
      0 <= x < y < |access| && Round(access, y) < Round(access, x) ==>
        !FeeReaches(ctx, tagged, access, x, y) && !FeeReaches(ctx, tagged, access, y, x)
  }

  lemma {:induction false} FeeOfNothing(price: nat, gas: nat)
    requires price == 0
    ensures Fee(price, gas) == 0
  {
    if gas > 0 {
      FeeOfNothing(price, gas - 1);
    }
  }

  lemma PaysIntoReaches(evm: Evm, ctx: BlockCtx, tagged: Tagged, access: Access, x: nat, y: nat)
    requires |access| == |tagged| && x < |access|
    ensures PaysInto(BlockWork(evm, ctx, tagged, access), x, y) ==> FeeReaches(ctx, tagged, access, x, y)
  {
    var w := BlockWork(evm, ctx, tagged, access);
    if PaysInto(w, x, y) {
      var e :| w.fee(x, e) > 0;
      if Tip(ctx, tagged[x].1) == 0 { FeeOfNothing(0, e.gasUsed); }
    }
  }

  // A block of transactions that keep to their declared keys, none of them over
  // budget in either order: in layered order, rewards and running gas rule
  // included, it leaves the accounts its base sequence would, and every
  // transaction has the same success, gas and logs - provided that no fee of a
  // pair that layering turns round reaches a key of the other.
  lemma LayeredBlockIsBaseSequence(evm: Evm, ctx: BlockCtx, limit: nat, s: Accounts, tagged: Tagged, access: Access,
      order: seq<nat>)
    requires |access| == |tagged| && Canonical(access, order) && Positions(tagged, order)
    requires AllDeclared(ProperRunner(evm, ctx, tagged), access) && FeesApart(ctx, tagged, access) && GasBounded(evm)
    requires NeverOver(evm, ctx, limit, Progress(s, EMPTY_BLOCK), tagged, order)
    requires NeverOver(evm, ctx, limit, Progress(s, EMPTY_BLOCK), tagged, Base(|tagged|))
    ensures RunSequential(evm, ctx, limit, Progress(s, EMPTY_BLOCK), tagged, order).accounts
            == RunSequential(evm, ctx, limit, Progress(s, EMPTY_BLOCK), tagged, Base(|tagged|)).accounts
    ensures Deeds(evm, ctx, limit, Progress(s, EMPTY_BLOCK), tagged, order)
            == Deeds(evm, ctx, limit, Progress(s, EMPTY_BLOCK), tagged, Base(|tagged|))
  {
    var w := BlockWork(evm, ctx, tagged, access);
    BlockWorkIsDeclared(evm, ctx, tagged, access);
    forall x, y | 0 <= x < y < |access| && Round(access, y) < Round(access, x) ensures !PaysInto(w, x, y) && !PaysInto(w, y, x) {
      PaysIntoReaches(evm, ctx, tagged, access, x, y);
      PaysIntoReaches(evm, ctx, tagged, access, y, x);
    }
    LayeringPreservesMeaning(w, s, order);
    RoomySequential(evm, ctx, limit, Progress(s, EMPTY_BLOCK), tagged, access, order);
    RoomySequential(evm, ctx, limit, Progress(s, EMPTY_BLOCK), tagged, access, Base(|tagged|));
  }

  // So it does, whatever the accounts, with room for all the declared gas.
  lemma RoomyBlockIsBaseSequence(evm: Evm, ctx: BlockCtx, limit: nat, s: Accounts, tagged: Tagged, access: Access,
      order: seq<nat>)
    requires |access| == |tagged| && Canonical(access, order)
    requires AllDeclared(ProperRunner(evm, ctx, tagged), access) && FeesApart(ctx, tagged, access)
    requires GasBounded(evm) && DeclaredGas(tagged, Base(|tagged|)) <= limit <= U64_MAX
    ensures Positions(tagged, order)
    ensures RunSequential(evm, ctx, limit, Progress(s, EMPTY_BLOCK), tagged, order).accounts
            == RunSequential(evm, ctx, limit, Progress(s, EMPTY_BLOCK), tagged, Base(|tagged|)).accounts
    ensures Deeds(evm, ctx, limit, Progress(s, EMPTY_BLOCK), tagged, order)
            == Deeds(evm, ctx, limit, Progress(s, EMPTY_BLOCK), tagged, Base(|tagged|))
  {
    CanonicalLists(access, order);
    SameDeclaredGas(tagged, order, |access|);
    RoomyNeverOver(evm, ctx, limit, Progress(s, EMPTY_BLOCK), tagged, order);
    RoomyNeverOver(evm, ctx, limit, Progress(s, EMPTY_BLOCK), tagged, Base(|tagged|));
    LayeredBlockIsBaseSequence(evm, ctx, limit, s, tagged, access, order);
  }
}
