/** Any number of clients that sync with one server, one full listing at a time. */
module ManyClients {
  import opened Common
  import opened Messages
  import opened Signatures
  import opened Writer
  import opened SyncPlan
  import opened Convergence
  import opened OnePath

  datatype System = System(server: Files, clients: seq<Files>)

  /** Client `i` sends its full listing and executes the plan it receives. */
  ghost predicate SyncStep(h: Hashes, x: System, i: nat, y: System) {
    && i < |x.clients|
    && exists plan :: PlansFor(h, plan, x.server, x.clients[i])
         && var r := Execute(Replicas(x.server, x.clients[i]), plan);
            y == System(r.server, x.clients[i := r.client])
  }

  /** A sequence of syncs with no edits in between; `who[k]` syncs between states k and k+1. */
  ghost predicate IsSyncRun(h: Hashes, run: seq<System>, who: seq<nat>) {
    && |run| == |who| + 1
    && forall k :: 0 <= k < |who| ==> SyncStep(h, run[k], who[k], run[k + 1])
  }

  lemma StepMerges(h: Hashes, x: System, i: nat, y: System)
    requires SyncStep(h, x, i, y)
    ensures |y.clients| == |x.clients| && y == System(y.server, x.clients[i := y.clients[i]])
    ensures forall p :: Pair(Replicas(y.server, y.clients[i]), p) == Merged(h, FileAt(x.server, p), FileAt(x.clients[i], p))
  {
    var plan :| PlansFor(h, plan, x.server, x.clients[i])
      && var r := Execute(Replicas(x.server, x.clients[i]), plan); y == System(r.server, x.clients[i := r.client]);
    forall p
      ensures Pair(Replicas(y.server, y.clients[i]), p) == Merged(h, FileAt(x.server, p), FileAt(x.clients[i], p))
    {
      PlanMerges(h, plan, x.server, x.clients[i], p);
    }
  }

  // ---------- Versions never go back ----------

  ghost predicate Below(a: Files, b: Files) {
    forall p :: KeptOrNewer(a, b, p)
  }

  lemma BelowTransitive(a: Files, b: Files, c: Files)
    requires Below(a, b) && Below(b, c)
    ensures Below(a, c)
  {
    forall p ensures KeptOrNewer(a, c, p) {
      assert KeptOrNewer(a, b, p) && KeptOrNewer(b, c, p);
    }
  }

  lemma MergedRaises(h: Hashes, r: Replicas, r': Replicas, p: Path)
    requires Pair(r', p) == Merged(h, FileAt(r.server, p), FileAt(r.client, p))
    ensures KeptOrNewer(r.server, r'.server, p) && KeptOrNewer(r.client, r'.client, p)
  {
    assert FileAt(r'.server, p) == Pair(r', p).0 && FileAt(r'.client, p) == Pair(r', p).1;
  }

  lemma StepRaises(h: Hashes, x: System, i: nat, y: System)
    requires SyncStep(h, x, i, y)
    ensures Below(x.server, y.server) && Below(x.clients[i], y.clients[i])
  {
    StepMerges(h, x, i, y);
    hide SyncStep, Merged, KeptOrNewer;
    var r, r' := Replicas(x.server, x.clients[i]), Replicas(y.server, y.clients[i]);
    forall p ensures KeptOrNewer(x.server, y.server, p) && KeptOrNewer(x.clients[i], y.clients[i], p) {
      assert Pair(r', p) == Merged(h, FileAt(x.server, p), FileAt(x.clients[i], p));
      MergedRaises(h, r, r', p);
    }
  }

  /** Over any sequence of syncs no version on the server is ever replaced but by a strictly
      newer one, whatever the hashes and timestamps are. */
  lemma {:induction false} ServerNeverGoesBack(h: Hashes, run: seq<System>, who: seq<nat>, j: nat, k: nat)
    requires IsSyncRun(h, run, who) && j <= k < |run|
    ensures Below(run[j].server, run[k].server)
    decreases k - j
  {
    if j < k {
      ServerNeverGoesBack(h, run, who, j, k - 1);
      StepRaises(h, run[k - 1], who[k - 1], run[k]);
      BelowTransitive(run[j].server, run[k - 1].server, run[k].server);
    }
  }

  // ---------- Convergence ----------

  function Replica(x: System, j: nat): Files
    requires j <= |x.clients|
  {
    if j == |x.clients| then x.server else x.clients[j]
  }

  /** What all replicas hold at one path, the server last. */
  function VersionsAt(x: System, p: Path): (r: Versions)
    ensures |r| == |x.clients| + 1
  {
    seq(|x.clients| + 1, j requires 0 <= j <= |x.clients| => FileAt(Replica(x, j), p))
  }

  /** Every file is, at its path, one of the files the system began with. */
  ghost predicate Drawn(x: System, a: Files) {
    forall p :: p in a ==> exists j :: 0 <= j <= |x.clients| && p in Replica(x, j) && Replica(x, j)[p] == a[p]
  }

  /** At each path the newest of all versions the system began with. */
  ghost predicate IsMaximum(x: System, m: Files) {
    Drawn(x, m) && forall j :: 0 <= j <= |x.clients| ==> Below(Replica(x, j), m)
  }

  /** The replicas are equal and hold the newest version of every path. */
  ghost predicate Converged(x: System, y: System) {
    && |y.clients| == |x.clients| && IsMaximum(x, y.server)
    && forall i :: 0 <= i < |y.clients| ==> y.clients[i] == y.server
  }

  /** `m` is held at the path, is strictly newer than every other version there, and shares
      its digest with none of them. */
  ghost predicate StandsOut(h: Hashes, x: System, p: Path, m: File) {
    Some(m) in VersionsAt(x, p) && AllNotNewer(m, VersionsAt(x, p)) && NoTwin(h, m, VersionsAt(x, p))
  }

  /** At every path that is held somewhere some version stands out. */
  ghost predicate NewestStandsOut(h: Hashes, x: System) {
    forall p, j :: 0 <= j <= |x.clients| && p in Replica(x, j) ==> exists m :: StandsOut(h, x, p, m)
  }

  /** At one path a sync is an exchange. */
  lemma SyncIsExchange(h: Hashes, x: System, i: nat, y: System, p: Path)
    requires SyncStep(h, x, i, y)
    ensures Exchange(h, VersionsAt(x, p), i, VersionsAt(y, p))
  {
    StepMerges(h, x, i, y);
    hide SyncStep, Merged;
    assert Pair(Replicas(y.server, y.clients[i]), p) == Merged(h, FileAt(x.server, p), FileAt(x.clients[i], p));
  }

  function RunAt(run: seq<System>, p: Path): (r: seq<Versions>)
    ensures |r| == |run|
  {
    seq(|run|, k requires 0 <= k < |run| => VersionsAt(run[k], p))
  }

  lemma SyncsAreExchanges(h: Hashes, run: seq<System>, who: seq<nat>, p: Path)
    requires IsSyncRun(h, run, who)
    ensures IsExchangeRun(h, RunAt(run, p), who)
  {
    hide SyncStep, Exchange, VersionsAt;
    forall k | 0 <= k < |who| ensures Exchange(h, RunAt(run, p)[k], who[k], RunAt(run, p)[k + 1]) {
      SyncIsExchange(h, run[k], who[k], run[k + 1], p);
    }
  }

  /** The version that stands out at a path, or none where nobody holds anything. */
  ghost predicate NewestIs(h: Hashes, x: System, p: Path, o: Option<File>) {
    match o
    case Some(m) => StandsOut(h, x, p, m)
    case None => forall j :: 0 <= j <= |x.clients| ==> p !in Replica(x, j)
  }

  lemma NewestExists(h: Hashes, x: System, p: Path) returns (o: Option<File>)
    requires NewestStandsOut(h, x)
    ensures NewestIs(h, x, p, o)
  {
    hide StandsOut;
    if j :| 0 <= j <= |x.clients| && p in Replica(x, j) {
      var m :| StandsOut(h, x, p, m);
      o := Some(m);
    } else {
      o := None;
    }
  }

  /** Where every path has its newest version the files are the maximum. */
  lemma NewestIsMaximum(h: Hashes, x: System, a: Files)
    requires forall p :: NewestIs(h, x, p, FileAt(a, p))
    ensures IsMaximum(x, a)
  {
    forall p | p in a ensures exists j :: 0 <= j <= |x.clients| && p in Replica(x, j) && Replica(x, j)[p] == a[p] {
      assert NewestIs(h, x, p, FileAt(a, p));
      var j :| 0 <= j < |VersionsAt(x, p)| && VersionsAt(x, p)[j] == Some(a[p]);
    }
    forall j, p | 0 <= j <= |x.clients| ensures KeptOrNewer(Replica(x, j), a, p) {
      assert NewestIs(h, x, p, FileAt(a, p));
      assert VersionsAt(x, p)[j] == FileAt(Replica(x, j), p);
    }
  }

  /** Once every client has synced, the server holds at a path what stands out there. */
  lemma OneRoundAt(h: Hashes, run: seq<System>, who: seq<nat>, k: nat, p: Path, o: Option<File>)
    requires IsSyncRun(h, run, who) && k < |run| && NewestIs(h, run[0], p, o)
    requires forall i :: 0 <= i < |run[0].clients| ==> i in who[..k]
    ensures FileAt(run[k].server, p) == o
  {
    SyncsAreExchanges(h, run, who, p);
    SameLength(h, RunAt(run, p), who, 0, k);
    assert |run[k].clients| == |run[0].clients| && RunAt(run, p)[k] == VersionsAt(run[k], p);
    hide IsSyncRun, IsExchangeRun, AllNotNewer, NoTwin;
    match o {
      case Some(m) => ServerGets(h, RunAt(run, p), who, m, k);
      case None => NothingAppears(h, RunAt(run, p), who, k);
    }
    assert VersionsAt(run[k], p)[|run[k].clients|] == FileAt(run[k].server, p);
  }

  lemma TwoRoundsAt(h: Hashes, run: seq<System>, who: seq<nat>, k: nat, p: Path, o: Option<File>, j: nat)
    requires IsSyncRun(h, run, who) && k < |run| && NewestIs(h, run[0], p, o)
    requires forall i :: 0 <= i < |run[0].clients| ==> i in who[..k] && i in who[k..]
    requires j <= |run[0].clients|
    ensures |run[|who|].clients| == |run[0].clients| && FileAt(Replica(run[|who|], j), p) == o
  {
    SyncsAreExchanges(h, run, who, p);
    SameLength(h, RunAt(run, p), who, 0, |who|);
    hide IsSyncRun, IsExchangeRun, AllNotNewer, NoTwin;
    match o {
      case Some(m) => EveryoneGets(h, RunAt(run, p), who, m, k, j);
      case None => NothingAppears(h, RunAt(run, p), who, |who|);
    }
    assert VersionsAt(run[|who|], p)[j] == FileAt(Replica(run[|who|], j), p);
  }

  /** Once every client has synced, in any order and any number of times, the server holds
      the newest version of every path. */
  lemma OneRoundGathers(h: Hashes, run: seq<System>, who: seq<nat>, k: nat)
    requires IsSyncRun(h, run, who) && NewestStandsOut(h, run[0]) && k < |run|
    requires forall i :: 0 <= i < |run[0].clients| ==> i in who[..k]
    ensures IsMaximum(run[0], run[k].server)
  {
    hide *;
    forall p ensures NewestIs(h, run[0], p, FileAt(run[k].server, p)) {
      var o := NewestExists(h, run[0], p);
      OneRoundAt(h, run, who, k, p, o);
    }
    NewestIsMaximum(h, run[0], run[k].server);
  }

  /** Two rounds bring every replica to the newest version of every path: once every client
      has synced, and then synced again, all replicas are equal. */
  lemma ManyClientConvergence(h: Hashes, run: seq<System>, who: seq<nat>, k: nat)
    requires IsSyncRun(h, run, who) && NewestStandsOut(h, run[0]) && k < |run|
    requires forall i :: 0 <= i < |run[0].clients| ==> i in who[..k] && i in who[k..]
    ensures Converged(run[0], run[|run| - 1])
  {
    var last := run[|who|];
    assert |run| - 1 == |who|;
    hide IsSyncRun, NewestStandsOut, NewestIs, IsMaximum;
    forall p, j: nat | j <= |run[0].clients|
      ensures |last.clients| == |run[0].clients|
      ensures FileAt(Replica(last, j), p) == FileAt(last.server, p) && NewestIs(h, run[0], p, FileAt(last.server, p))
    {
      var o := NewestExists(h, run[0], p);
      TwoRoundsAt(h, run, who, k, p, o, j);
      TwoRoundsAt(h, run, who, k, p, o, |run[0].clients|);
    }
    assert |last.clients| == |run[0].clients| by {
      var o := NewestExists(h, run[0], []);
      TwoRoundsAt(h, run, who, k, [], o, 0);
    }
    forall p ensures NewestIs(h, run[0], p, FileAt(last.server, p)) {
      assert FileAt(Replica(last, 0), p) == FileAt(last.server, p);
    }
    NewestIsMaximum(h, run[0], last.server);
    forall i | 0 <= i < |last.clients| ensures last.clients[i] == last.server {
      forall p ensures FileAt(last.clients[i], p) == FileAt(last.server, p) {
        assert FileAt(Replica(last, i), p) == FileAt(last.server, p);
      }
      SameFiles(last.clients[i], last.server);
    }
  }

  lemma SameFiles(a: Files, b: Files)
    requires forall p :: FileAt(a, p) == FileAt(b, p)
    ensures a == b
  {
    forall p ensures (p in a <==> p in b) && (p in a ==> a[p] == b[p]) {
      assert FileAt(a, p) == FileAt(b, p);
    }
  }

  // ---------- The condition is exact ----------

  /** Every client can sync from every state. */
  lemma SyncExists(h: Hashes, x: System, i: nat) returns (y: System)
    requires i < |x.clients|
    ensures SyncStep(h, x, i, y)
  {
    var plan := PlanExists(Listing(h, x.server), Statuses(h, x.clients[i]));
    var r := Execute(Replicas(x.server, x.clients[i]), plan);
    y := System(r.server, x.clients[i := r.client]);
  }

  lemma {:induction false} RunExists(h: Hashes, x: System, who: seq<nat>) returns (run: seq<System>)
    requires forall k :: 0 <= k < |who| ==> who[k] < |x.clients|
    ensures IsSyncRun(h, run, who) && run[0] == x
    decreases |who|
  {
    run := [x];
    if who != [] {
      var y := SyncExists(h, x, who[0]);
      var rest := RunExists(h, y, who[1..]);
      run := [x] + rest;
      forall k | 0 <= k < |who| ensures SyncStep(h, run[k], who[k], run[k + 1]) {
        if k > 0 { assert who[k] == who[1..][k - 1]; }
      }
    }
  }

  function Upto(n: nat): (r: set<nat>)
    ensures forall i: nat :: i in r <==> i < n
  {
    if n == 0 then {} else Upto(n - 1) + {n - 1}
  }

  /** The numbers of `keep` below `n`, each once, in some order. */
  ghost predicate Lists(who: seq<nat>, keep: set<nat>, n: nat) {
    && (forall k :: 0 <= k < |who| ==> who[k] < n && who[k] in keep)
    && (forall i :: 0 <= i < n && i in keep ==> i in who)
    && (forall k, l :: 0 <= k < l < |who| ==> who[k] != who[l])
  }

  /** Each client once, in some order. */
  ghost predicate IsRound(who: seq<nat>, n: nat) {
    && (forall k :: 0 <= k < |who| ==> who[k] < n)
    && (forall i :: 0 <= i < n ==> i in who)
    && (forall k, l :: 0 <= k < l < |who| ==> who[k] != who[l])
  }

  lemma {:induction false} ListExists(keep: set<nat>, n: nat) returns (who: seq<nat>)
    ensures Lists(who, keep, n)
  {
    if n == 0 {
      who := [];
    } else {
      who := ListExists(keep, n - 1);
      if n - 1 in keep { who := who + [n - 1]; }
    }
  }

  lemma RoundOf(r: seq<nat>, s: seq<nat>, keep: set<nat>, rest: set<nat>, n: nat)
    requires Lists(r, keep, n) && Lists(s, rest, n)
    requires forall i :: 0 <= i < n ==> (i in keep <==> i !in rest)
    ensures IsRound(r + s, n)
  {
    forall k, l | 0 <= k < l < |r + s| ensures (r + s)[k] != (r + s)[l] {
      if k < |r| <= l { assert r[k] in keep && s[l - |r|] in rest; }
    }
  }

  /** A server that holds the maximum holds at each path a version that no other is newer than. */
  lemma MaximumAt(x: System, a: Files, p: Path)
    requires IsMaximum(x, a) && exists j :: 0 <= j <= |x.clients| && p in Replica(x, j)
    ensures p in a && Some(a[p]) in VersionsAt(x, p) && AllNotNewer(a[p], VersionsAt(x, p))
  {
    var j :| 0 <= j <= |x.clients| && p in Replica(x, j);
    assert KeptOrNewer(Replica(x, j), a, p);
    var k :| 0 <= k <= |x.clients| && p in Replica(x, k) && Replica(x, k)[p] == a[p];
    assert VersionsAt(x, p)[k] == Some(a[p]);
    forall i | 0 <= i < |VersionsAt(x, p)| ensures NotNewer(a[p], VersionsAt(x, p)[i]) {
      assert KeptOrNewer(Replica(x, i), a, p);
    }
  }

  lemma NewestUnique(m: File, m': File, a: Versions)
    requires Some(m) in a && AllNotNewer(m, a) && Some(m') in a && AllNotNewer(m', a)
    ensures m == m'
  {
    var i :| 0 <= i < |a| && a[i] == Some(m);
    var j :| 0 <= j < |a| && a[j] == Some(m');
    assert NotNewer(m, a[j]) && NotNewer(m', a[i]);
  }

  /** Two rounds, the first in the order `hs`, `ns`, the second in the order `ns`, `hs`. */
  lemma RoundsOfBoth(a: Versions, keep: set<nat>) returns (hs: seq<nat>, ns: seq<nat>)
    requires a != []
    ensures var n := |a| - 1;
      && Lists(hs, keep, n) && Lists(ns, Upto(n) - keep, n)
      && IsRound(hs + ns, n) && IsRound(ns + hs, n)
  {
    var n := |a| - 1;
    var rest := Upto(n) - keep;
    hs := ListExists(keep, n);
    ns := ListExists(rest, n);
    RoundOf(hs, ns, keep, rest, n);
    RoundOf(ns, hs, rest, keep, n);
  }

  /** A converged system holds on every replica the newest of the versions at a path. */
  lemma ConvergedAt(x: System, y: System, p: Path, i: nat)
    requires Converged(x, y) && i <= |x.clients| && exists j :: 0 <= j <= |x.clients| && p in Replica(x, j)
    ensures VersionsAt(y, p)[i].Some?
    ensures var m := VersionsAt(y, p)[i].value; Some(m) in VersionsAt(x, p) && AllNotNewer(m, VersionsAt(x, p))
  {
    MaximumAt(x, y.server, p);
    hide IsMaximum, AllNotNewer;
    assert Replica(y, i) == y.server;
  }

  /** A version that no other is newer than, if there is one. */
  lemma NewestOf(x: System, p: Path, j: nat) returns (m: File)
    requires j <= |x.clients| && p in Replica(x, j)
    ensures forall v :: Some(v) in VersionsAt(x, p) && AllNotNewer(v, VersionsAt(x, p)) ==> v == m
    ensures Some(m) in VersionsAt(x, p)
  {
    var a := VersionsAt(x, p);
    m := Replica(x, j)[p];
    assert a[j] == Some(m);
    if v: File :| Some(v) in a && AllNotNewer(v, a) { m := v; }
    forall v | Some(v) in a && AllNotNewer(v, a) ensures v == m {
      hide AllNotNewer;
      NewestUnique(v, m, a);
    }
  }

  /** Two rounds in which the holders of the newest version come first and then last. */
  lemma BadOrder(h: Hashes, x: System, p: Path, m: File, run: seq<System>, hs: seq<nat>, ns: seq<nat>)
    requires IsSyncRun(h, run, (hs + ns) + (ns + hs)) && run[0] == x && Splits(VersionsAt(x, p), m, hs, ns)
    requires forall v :: Some(v) in VersionsAt(x, p) && AllNotNewer(v, VersionsAt(x, p)) ==> v == m
    requires Some(m) in VersionsAt(x, p) && !StandsOut(h, x, p, m)
    requires exists j :: 0 <= j <= |x.clients| && p in Replica(x, j)
    ensures !Converged(x, run[|run| - 1])
  {
    var a, who, last := VersionsAt(x, p), (hs + ns) + (ns + hs), run[|run| - 1];
    hide Splits, SyncStep, Replica, AllNotNewer, VersionsAt, Converged, IsSyncRun, IsExchangeRun;
    if Converged(x, last) {
      ConvergedAt(x, last, p, 0);
      assert AllNotNewer(m, a);
      var t :| 0 <= t < |a| && Twin(h, m, a[t]);
      SyncsAreExchanges(h, run, who, p);
      assert RunAt(run, p)[0] == a;
      TwinSpoils(h, RunAt(run, p), who, m, hs, ns, t);
      var i :| 0 <= i < |a| && RunAt(run, p)[|who|][i] != Some(m);
      assert |run| - 1 == |who| by { SyncRunLength(h, run, who); }
      ConvergedAt(x, last, p, i);
    }
  }

  lemma SyncRunLength(h: Hashes, run: seq<System>, who: seq<nat>)
    requires IsSyncRun(h, run, who)
    ensures |run| == |who| + 1
  {
  }

  /** The holders of `m` and the other clients. */
  lemma SplitExists(a: Versions, m: File) returns (hs: seq<nat>, ns: seq<nat>)
    requires a != []
    ensures Splits(a, m, hs, ns) && IsRound(hs + ns, |a| - 1) && IsRound(ns + hs, |a| - 1)
  {
    hs, ns := RoundsOfBoth(a, set i | 0 <= i < |a| - 1 && a[i] == Some(m));
  }

  lemma ListedBelow(first: seq<nat>, second: seq<nat>, n: nat)
    requires IsRound(first, n) && IsRound(second, n)
    ensures forall k :: 0 <= k < |first + second| ==> (first + second)[k] < n
  {
  }

  /** When at some path no version stands out, there are two rounds, each client once in each,
      that do not leave all replicas equal and newest. */
  lemma BadRounds(h: Hashes, x: System) returns (run: seq<System>, first: seq<nat>, second: seq<nat>)
    requires !NewestStandsOut(h, x)
    ensures IsRound(first, |x.clients|) && IsRound(second, |x.clients|)
    ensures IsSyncRun(h, run, first + second) && run[0] == x && !Converged(x, run[|run| - 1])
  {
    var p, j :| 0 <= j <= |x.clients| && p in Replica(x, j) && !exists m :: StandsOut(h, x, p, m);
    var a := VersionsAt(x, p);
    var m := NewestOf(x, p, j);
    assert !StandsOut(h, x, p, m);
    hide NewestStandsOut, Splits, SyncStep, AllNotNewer, Converged, StandsOut, IsRound;
    var hs, ns := SplitExists(a, m);
    first, second := hs + ns, ns + hs;
    ListedBelow(first, second, |x.clients|);
    run := RunExists(h, x, first + second);
    BadOrder(h, x, p, m, run, hs, ns);
  }

  /** Two rounds: every client syncs among the first `k` syncs and again among the others. */
  ghost predicate TwoRounds(h: Hashes, x: System, run: seq<System>, who: seq<nat>, k: nat) {
    && IsSyncRun(h, run, who) && run[0] == x && k <= |who|
    && forall i :: 0 <= i < |x.clients| ==> i in who[..k] && i in who[k..]
  }

  /** The exact condition under which two rounds suffice: all replicas end equal and newest,
      whatever the order of the syncs, if and only if at every path some version stands out. */
  lemma TwoRoundsConvergeExactly(h: Hashes, x: System)
    ensures NewestStandsOut(h, x) <==>
      forall run, who, k :: TwoRounds(h, x, run, who, k) ==> Converged(x, run[|run| - 1])
  {
    if NewestStandsOut(h, x) {
      forall run, who, k | TwoRounds(h, x, run, who, k) ensures Converged(x, run[|run| - 1]) {
        hide NewestStandsOut, Converged;
        ManyClientConvergence(h, run, who, k);
      }
    } else {
      hide NewestStandsOut, Converged, SyncStep;
      var run, first, second := BadRounds(h, x);
      assert TwoRounds(h, x, run, first + second, |first|) by {
        assert (first + second)[..|first|] == first && (first + second)[|first|..] == second;
      }
    }
  }

  // ---------- Contents without timestamps ----------

  /** At every path the replicas hold the same digest, or nothing. */
  ghost predicate DigestsAgree(h: Hashes, x: System) {
    forall p :: Agree(h, VersionsAt(x, p))
  }

  ghost predicate PrevailsAt(h: Hashes, x: System, p: Path, m: File) {
    Some(m) in VersionsAt(x, p) && Prevails(h, m, VersionsAt(x, p))
  }

  /** At every path that is held somewhere some version prevails: it is strictly newer than
      all with another digest, and so is each with its digest that can reach the server. */
  ghost predicate NewestPrevails(h: Hashes, x: System) {
    forall p, j :: 0 <= j <= |x.clients| && p in Replica(x, j) ==> exists m :: PrevailsAt(h, x, p, m)
  }

  lemma AgreeAt(h: Hashes, run: seq<System>, who: seq<nat>, k: nat, p: Path)
    requires IsSyncRun(h, run, who) && NewestPrevails(h, run[0]) && k < |run|
    requires forall i :: 0 <= i < |run[0].clients| ==> i in who[..k] && i in who[k..]
    ensures Agree(h, VersionsAt(run[|who|], p))
  {
    SyncsAreExchanges(h, run, who, p);
    SameLength(h, RunAt(run, p), who, 0, |who|);
    var x := run[0];
    hide IsSyncRun, IsExchangeRun, Prevails, Same;
    if j :| 0 <= j <= |x.clients| && p in Replica(x, j) {
      var m :| PrevailsAt(h, x, p, m);
      forall i | 0 <= i < |VersionsAt(x, p)| ensures Same(h, m, VersionsAt(run[|who|], p)[i]) {
        EveryoneAgrees(h, RunAt(run, p), who, m, k, i);
      }
      AllSameAgree(h, VersionsAt(run[|who|], p), m);
    } else {
      NothingAppears(h, RunAt(run, p), who, |who|);
    }
  }

  lemma AllSameAgree(h: Hashes, a: Versions, m: File)
    requires forall i :: 0 <= i < |a| ==> Same(h, m, a[i])
    ensures Agree(h, a)
  {
  }

  /** Two newest versions with different digests: any rounds will do. */
  lemma TieRounds(h: Hashes, x: System, p: Path, m: File, c: nat)
    returns (run: seq<System>, first: seq<nat>, second: seq<nat>)
    requires Newest(m, VersionsAt(x, p)) && Some(m) in VersionsAt(x, p) && c <= |x.clients|
    requires Other(h, m, VersionsAt(x, p)[c]) && !NewerThan(Some(m), VersionsAt(x, p)[c])
    ensures IsRound(first, |x.clients|) && IsRound(second, |x.clients|)
    ensures IsSyncRun(h, run, first + second) && run[0] == x && !DigestsAgree(h, run[|run| - 1])
  {
    var n := |x.clients|;
    first := ListExists(Upto(n), n);
    second := first;
    assert IsRound(first, n);
    hide *;
    ListedBelow(first, second, n);
    run := RunExists(h, x, first + second);
    RunAtBegins(h, run, first + second, p);
    TieDiffers(h, RunAt(run, p), first + second, m, c);
    DisagreeAt(h, run[|run| - 1], p);
  }

  /** A version with the newest digest that can reach the server but is not newer than all
      others: rounds that begin with it, and then keep the holders of its digest apart. */
  lemma ReachedRounds(h: Hashes, x: System, p: Path, m: File, j: nat, c: nat)
    returns (run: seq<System>, first: seq<nat>, second: seq<nat>)
    requires Newest(m, VersionsAt(x, p)) && Some(m) in VersionsAt(x, p) && j <= |x.clients| && c <= |x.clients|
    requires Same(h, m, VersionsAt(x, p)[j]) && Reaches(h, m, VersionsAt(x, p), j) && Other(h, m, VersionsAt(x, p)[c])
    requires !NewerThan(VersionsAt(x, p)[j], VersionsAt(x, p)[c])
    ensures IsRound(first, |x.clients|) && IsRound(second, |x.clients|)
    ensures IsSyncRun(h, run, first + second) && run[0] == x && !DigestsAgree(h, run[|run| - 1])
  {
    hide *;
    var hs, ns, ls := PartsExist(h, VersionsAt(x, p), m, j);
    first, second := hs + ns, ns + ls;
    ListedBelow(first, second, |x.clients|);
    run := RunExists(h, x, first + second);
    RunAtBegins(h, run, first + second, p);
    ReachedDiffers(h, RunAt(run, p), first + second, m, hs, ns, ls, j, c);
    DisagreeAt(h, run[|run| - 1], p);
  }

  /** When at some path no version prevails, there are two rounds, each client once in each,
      after which the replicas hold different digests there. */
  lemma DisagreeingRounds(h: Hashes, x: System) returns (run: seq<System>, first: seq<nat>, second: seq<nat>)
    requires !NewestPrevails(h, x)
    ensures IsRound(first, |x.clients|) && IsRound(second, |x.clients|)
    ensures IsSyncRun(h, run, first + second) && run[0] == x && !DigestsAgree(h, run[|run| - 1])
  {
    var p, i :| 0 <= i <= |x.clients| && p in Replica(x, i) && !exists m :: PrevailsAt(h, x, p, m);
    var a := VersionsAt(x, p);
    assert a[i].Some?;
    var m := OnePath.NewestExists(a, i);
    assert !PrevailsAt(h, x, p, m);
    hide NewestPrevails, VersionsAt, SyncStep, DigestsAgree, Newest, IsRound, Same, Reaches, Other, NewerThan;
    if c :| 0 <= c < |a| && Other(h, m, a[c]) && !NewerThan(Some(m), a[c]) {
      run, first, second := TieRounds(h, x, p, m, c);
    } else {
      var j, c :| 0 <= j < |a| && 0 <= c < |a| && Same(h, m, a[j]) && Reaches(h, m, a, j) && Other(h, m, a[c])
        && !NewerThan(a[j], a[c]);
      run, first, second := ReachedRounds(h, x, p, m, j, c);
    }
  }

  lemma DisagreeAt(h: Hashes, x: System, p: Path)
    requires !Agree(h, VersionsAt(x, p))
    ensures !DigestsAgree(h, x)
  {
    hide Agree;
  }

  lemma RunAtBegins(h: Hashes, run: seq<System>, who: seq<nat>, p: Path)
    requires IsSyncRun(h, run, who)
    ensures IsExchangeRun(h, RunAt(run, p), who)
    ensures |run| == |who| + 1 && RunAt(run, p)[0] == VersionsAt(run[0], p) && RunAt(run, p)[|who|] == VersionsAt(run[|run| - 1], p)
  {
    hide SyncStep, Exchange, VersionsAt;
    SyncsAreExchanges(h, run, who, p);
  }

  /** A list with one of its members in front. */
  lemma FrontExists(keep: set<nat>, j: nat, n: nat) returns (hs: seq<nat>)
    requires j < n && j in keep
    ensures hs != [] && hs[0] == j && Lists(hs, keep, n)
  {
    var others := ListExists(keep - {j}, n);
    hs := [j] + others;
    forall i | 0 <= i < n && i in keep ensures i in hs {
      assert i == j || i in others;
    }
  }

  /** The clients with the digest of `m`, once with `j` in front if it is a client, and the others. */
  lemma PartsExist(h: Hashes, a: Versions, m: File, j: nat) returns (hs: seq<nat>, ns: seq<nat>, ls: seq<nat>)
    requires j < |a| && Same(h, m, a[j])
    ensures Parts(h, a, m, hs, ns) && Parts(h, a, m, ls, ns)
    ensures j < |a| - 1 ==> hs != [] && hs[0] == j
    ensures IsRound(hs + ns, |a| - 1) && IsRound(ns + ls, |a| - 1)
  {
    var n, keep := |a| - 1, Apart(h, a, m);
    var rest := Upto(n) - keep;
    ls, ns := RoundsOfBoth(a, keep);
    hs := ls;
    if j < n {
      assert j in keep;
      hide Lists, IsRound;
      hs := FrontExists(keep, j, n);
      RoundOf(hs, ns, keep, rest, n);
    }
    ListedParts(h, a, m, hs, ns);
    ListedParts(h, a, m, ls, ns);
  }

  lemma ListedParts(h: Hashes, a: Versions, m: File, hs: seq<nat>, ns: seq<nat>)
    requires a != [] && Lists(hs, Apart(h, a, m), |a| - 1) && Lists(ns, Upto(|a| - 1) - Apart(h, a, m), |a| - 1)
    ensures Parts(h, a, m, hs, ns)
  {
    hide Same;
  }

  /** The exact condition under which two rounds bring the contents together, timestamps
      aside: in every order the replicas end with the same digest at every path, if and only
      if at every path some version prevails. */
  lemma TwoRoundsAgreeExactly(h: Hashes, x: System)
    ensures NewestPrevails(h, x) <==>
      forall run, who, k :: TwoRounds(h, x, run, who, k) ==> DigestsAgree(h, run[|run| - 1])
  {
    if NewestPrevails(h, x) {
      forall run, who, k | TwoRounds(h, x, run, who, k) ensures DigestsAgree(h, run[|run| - 1]) {
        hide NewestPrevails, Agree, SyncStep;
        var last := run[|run| - 1];
        forall p ensures Agree(h, VersionsAt(last, p)) {
          AgreeAt(h, run, who, k, p);
        }
      }
    } else {
      hide NewestPrevails, DigestsAgree, SyncStep;
      var run, first, second := DisagreeingRounds(h, x);
      assert TwoRounds(h, x, run, first + second, |first|) by {
        assert (first + second)[..|first|] == first && (first + second)[|first|..] == second;
      }
    }
  }

  // ---------- An example ----------

  /** Three clients and an empty server; two hold the same content with different timestamps. */
  function ThreeClients(path: Path, x: Bytes, y: Bytes, t: Timestamp): System {
    System(map[], [map[path := File(x, Timestamp(1, 0))], map[path := File(x, Timestamp(5, 0))], map[path := File(y, t)]])
  }

  lemma OnlyOnePath(path: Path, x: Bytes, y: Bytes, t: Timestamp)
    ensures var s := ThreeClients(path, x, y, t);
      && (forall p, j :: 0 <= j <= |s.clients| && p in Replica(s, j) ==> p == path)
      && path in Replica(s, 0)
      && VersionsAt(s, path) == [Some(File(x, Timestamp(1, 0))), Some(File(x, Timestamp(5, 0))), Some(File(y, t)), None]
  {
  }

  /** Equal contents with different timestamps do harm only when they are the newest. */
  lemma ThreeClientsConvergeWhen(h: Hashes, path: Path, x: Bytes, y: Bytes, t: Timestamp)
    requires h.strong(x) != h.strong(y)
    ensures NewestStandsOut(h, ThreeClients(path, x, y, t)) <==> t.Newer(Timestamp(5, 0))
  {
    var s := ThreeClients(path, x, y, t);
    OnlyOnePath(path, x, y, t);
    var a := VersionsAt(s, path);
    hide ThreeClients, VersionsAt, Replica;
    if t.Newer(Timestamp(5, 0)) {
      assert a[2] == Some(File(y, t));
      assert StandsOut(h, s, path, File(y, t));
    } else {
      assert a[0] == Some(File(x, Timestamp(1, 0))) && a[1] == Some(File(x, Timestamp(5, 0)));
      forall v: File ensures !StandsOut(h, s, path, v) {
        hide NewestStandsOut;
      }
    }
  }

  /** Their contents come together exactly when the other one is newer or older than both. */
  lemma ThreeClientsAgreeWhen(h: Hashes, path: Path, x: Bytes, y: Bytes, t: Timestamp)
    requires h.strong(x) != h.strong(y)
    ensures NewestPrevails(h, ThreeClients(path, x, y, t)) <==> t.Newer(Timestamp(5, 0)) || Timestamp(1, 0).Newer(t)
  {
    var s := ThreeClients(path, x, y, t);
    OnlyOnePath(path, x, y, t);
    var a := VersionsAt(s, path);
    hide ThreeClients, VersionsAt, Replica;
    assert a[0] == Some(File(x, Timestamp(1, 0))) && a[1] == Some(File(x, Timestamp(5, 0))) && a[2] == Some(File(y, t));
    if t.Newer(Timestamp(5, 0)) {
      assert PrevailsAt(h, s, path, File(y, t));
    } else if Timestamp(1, 0).Newer(t) {
      assert PrevailsAt(h, s, path, File(x, Timestamp(5, 0)));
    } else {
      assert Reaches(h, File(x, Timestamp(5, 0)), a, 0) && Reaches(h, File(x, Timestamp(1, 0)), a, 0);
      forall v: File ensures !PrevailsAt(h, s, path, v) {
        hide NewestPrevails;
      }
    }
  }

  /** For one whose timestamp lies in between: the first client keeps the third one's content
      while the server ends with the other, whose newer timestamp the planner skipped on equal
      contents. */
  lemma NewestWithTwinFails(h: Hashes, path: Path, x: Bytes, y: Bytes) returns (run: seq<System>)
    requires h.strong(x) != h.strong(y)
    ensures IsSyncRun(h, run, [0, 1, 2, 0, 1, 2])
    ensures run[0] == ThreeClients(path, x, y, Timestamp(3, 0))
    ensures FileAt(run[6].server, path) == Some(File(x, Timestamp(5, 0)))
    ensures |run[6].clients| == 3 && FileAt(run[6].clients[0], path) == Some(File(y, Timestamp(3, 0)))
  {
    hide SyncStep;
    var who: seq<nat> := [0, 1, 2, 0, 1, 2];
    run := RunExists(h, ThreeClients(path, x, y, Timestamp(3, 0)), who);
    StepAt(h, run, who, 0, path);
    StepAt(h, run, who, 1, path);
    StepAt(h, run, who, 2, path);
    StepAt(h, run, who, 3, path);
    StepAt(h, run, who, 4, path);
    StepAt(h, run, who, 5, path);
  }

  lemma StepAt(h: Hashes, run: seq<System>, who: seq<nat>, k: nat, path: Path)
    requires IsSyncRun(h, run, who) && k < |who|
    ensures var x, i, y := run[k], who[k], run[k + 1];
      && i < |x.clients| == |y.clients|
      && (forall j :: 0 <= j < |x.clients| && j != i ==> y.clients[j] == x.clients[j])
      && (FileAt(y.server, path), FileAt(y.clients[i], path)) == Merged(h, FileAt(x.server, path), FileAt(x.clients[i], path))
  {
    StepMerges(h, run[k], who[k], run[k + 1]);
    assert Pair(Replicas(run[k + 1].server, run[k + 1].clients[who[k]]), path)
        == Merged(h, FileAt(run[k].server, path), FileAt(run[k].clients[who[k]], path));
  }
}
