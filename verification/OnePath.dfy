/** The syncs of many clients with one server, seen at a single path. */
module OnePath {
  import opened Common
  import opened Signatures
  import opened Writer
  import opened Convergence

  /** What each client holds at the path and, last, what the server holds. */
  type Versions = seq<Option<File>>

  /** Client `i` and the server merge what they hold. */
  predicate Exchange(h: Hashes, a: Versions, i: nat, b: Versions) {
    && i < |a| - 1
    && var n := |a| - 1;
       var merged := Merged(h, a[n], a[i]);
       b == a[i := merged.1][n := merged.0]
  }

  /** `who[k]` exchanges with the server between states k and k+1. */
  ghost predicate IsExchangeRun(h: Hashes, run: seq<Versions>, who: seq<nat>) {
    && |run| == |who| + 1
    && forall k :: 0 <= k < |who| ==> Exchange(h, run[k], who[k], run[k + 1])
  }

  lemma {:induction false} SameLength(h: Hashes, run: seq<Versions>, who: seq<nat>, a: nat, k: nat)
    requires IsExchangeRun(h, run, who) && a <= k < |run|
    ensures |run[k]| == |run[a]|
    decreases k
  {
    hide Merged;
    if a < k { SameLength(h, run, who, a, k - 1); }
  }

  /** Exchanges only hand versions on. */
  lemma {:induction false} NothingNew(h: Hashes, run: seq<Versions>, who: seq<nat>, k: nat)
    requires IsExchangeRun(h, run, who) && k < |run|
    ensures |run[k]| == |run[0]| && forall j :: 0 <= j < |run[k]| ==> run[k][j] in run[0]
  {
    if k > 0 {
      NothingNew(h, run, who, k - 1);
      assert Exchange(h, run[k - 1], who[k - 1], run[k]);
    }
  }

  // ---------- A newest version that stands out ----------

  /** No version, the version `m` itself, or an older one. */
  predicate NotNewer(m: File, o: Option<File>) {
    o.None? || o.value == m || m.modified.Newer(o.value.modified)
  }

  /** Another version with the digest of `m`: the planner takes the two for the same. */
  predicate Twin(h: Hashes, m: File, o: Option<File>) {
    o.Some? && o.value != m && h.strong(o.value.content) == h.strong(m.content)
  }

  ghost predicate AllNotNewer(m: File, a: Versions) {
    forall j :: 0 <= j < |a| ==> NotNewer(m, a[j])
  }

  ghost predicate NoTwin(h: Hashes, m: File, a: Versions) {
    forall j :: 0 <= j < |a| ==> !Twin(h, m, a[j])
  }

  /** Without twins the newest version wins every exchange. */
  lemma NewestWins(h: Hashes, a: Versions, i: nat, b: Versions, m: File)
    requires Exchange(h, a, i, b) && AllNotNewer(m, a) && NoTwin(h, m, a)
    ensures |b| == |a| && AllNotNewer(m, b) && NoTwin(h, m, b)
    ensures forall j :: 0 <= j < |a| && a[j] == Some(m) ==> b[j] == Some(m)
    ensures a[i] == Some(m) || a[|a| - 1] == Some(m) ==> b[i] == Some(m) && b[|a| - 1] == Some(m)
  {
    var n := |a| - 1;
    assert NotNewer(m, a[i]) && NotNewer(m, a[n]) && !Twin(h, m, a[i]) && !Twin(h, m, a[n]);
  }

  lemma {:induction false} HolderKeeps(h: Hashes, run: seq<Versions>, who: seq<nat>, m: File, k: nat)
    requires IsExchangeRun(h, run, who) && AllNotNewer(m, run[0]) && NoTwin(h, m, run[0]) && k < |run|
    ensures |run[k]| == |run[0]| && AllNotNewer(m, run[k]) && NoTwin(h, m, run[k])
    ensures forall j, a :: 0 <= a <= k && 0 <= j < |run[a]| == |run[k]| && run[a][j] == Some(m) ==> run[k][j] == Some(m)
  {
    if k > 0 {
      HolderKeeps(h, run, who, m, k - 1);
      hide AllNotNewer, NoTwin;
      assert Exchange(h, run[k - 1], who[k - 1], run[k]);
      hide Exchange;
      NewestWins(h, run[k - 1], who[k - 1], run[k], m);
    }
  }

  /** Once every client has exchanged, the server holds the newest version. */
  lemma ServerGets(h: Hashes, run: seq<Versions>, who: seq<nat>, m: File, k: nat)
    requires IsExchangeRun(h, run, who) && k < |run| && run[0] != []
    requires AllNotNewer(m, run[0]) && NoTwin(h, m, run[0]) && Some(m) in run[0]
    requires forall i :: 0 <= i < |run[0]| - 1 ==> i in who[..k]
    ensures |run[k]| == |run[0]| && run[k][|run[0]| - 1] == Some(m)
  {
    var n := |run[0]| - 1;
    var i :| 0 <= i <= n && run[0][i] == Some(m);
    HolderKeeps(h, run, who, m, k);
    if i < n {
      assert i in who[..k];
      var q :| 0 <= q < k && who[q] == i;
      HolderKeeps(h, run, who, m, q);
      HolderKeeps(h, run, who, m, q + 1);
      hide AllNotNewer, NoTwin;
      assert run[q][i] == Some(m);
      assert Exchange(h, run[q], who[q], run[q + 1]);
      NewestWins(h, run[q], i, run[q + 1], m);
    }
  }

  /** Once every client has exchanged, and then exchanged again, all hold the newest version. */
  lemma EveryoneGets(h: Hashes, run: seq<Versions>, who: seq<nat>, m: File, k: nat, j: nat)
    requires IsExchangeRun(h, run, who) && k < |run|
    requires AllNotNewer(m, run[0]) && NoTwin(h, m, run[0]) && Some(m) in run[0]
    requires forall i :: 0 <= i < |run[0]| - 1 ==> i in who[..k] && i in who[k..]
    requires j < |run[0]|
    ensures |run[|who|]| == |run[0]| && run[|who|][j] == Some(m)
  {
    var n := |run[0]| - 1;
    ServerGets(h, run, who, m, k);
    HolderKeeps(h, run, who, m, |who|);
    if j < n {
      assert j in who[k..];
      var q :| 0 <= q < |who[k..]| && who[k..][q] == j;
      HolderKeeps(h, run, who, m, k + q);
      HolderKeeps(h, run, who, m, k + q + 1);
      hide AllNotNewer, NoTwin;
      assert run[k + q][n] == Some(m);
      assert Exchange(h, run[k + q], who[k + q], run[k + q + 1]);
      NewestWins(h, run[k + q], j, run[k + q + 1], m);
    }
  }

  /** A path nobody holds stays so. */
  lemma {:induction false} NothingAppears(h: Hashes, run: seq<Versions>, who: seq<nat>, k: nat)
    requires IsExchangeRun(h, run, who) && k < |run|
    requires forall j :: 0 <= j < |run[0]| ==> run[0][j] == None
    ensures forall j :: 0 <= j < |run[k]| ==> run[k][j] == None
  {
    if k > 0 {
      NothingAppears(h, run, who, k - 1);
      assert Exchange(h, run[k - 1], who[k - 1], run[k]);
    }
  }

  // ---------- A newest version with a twin ----------

  /** While the server holds the newest version it keeps it, and a twin stays where it is. */
  lemma {:induction false} TwinStays(h: Hashes, run: seq<Versions>, who: seq<nat>, m: File, j: nat, a: nat, k: nat)
    requires IsExchangeRun(h, run, who) && a <= k < |run|
    requires j < |run[a]| - 1 && run[a][|run[a]| - 1] == Some(m) && Twin(h, m, run[a][j]) && AllNotNewer(m, run[a])
    ensures |run[k]| == |run[a]| && run[k][j] == run[a][j] && run[k][|run[a]| - 1] == Some(m) && AllNotNewer(m, run[k])
    decreases k
  {
    if a < k {
      TwinStays(h, run, who, m, j, a, k - 1);
      assert Exchange(h, run[k - 1], who[k - 1], run[k]);
      assert NotNewer(m, run[k - 1][who[k - 1]]);
    }
  }

  /** A server with a twin takes nothing from clients that hold the newest version. */
  lemma {:induction false} HoldersSkip(h: Hashes, run: seq<Versions>, who: seq<nat>, m: File, a: nat, k: nat)
    requires IsExchangeRun(h, run, who) && a <= k < |run|
    requires run[a] != [] && Twin(h, m, run[a][|run[a]| - 1])
    requires forall t :: a <= t < k ==> who[t] < |run[a]| - 1 && run[a][who[t]] == Some(m)
    ensures run[k] == run[a]
    decreases k
  {
    if a < k {
      HoldersSkip(h, run, who, m, a, k - 1);
      assert Exchange(h, run[k - 1], who[k - 1], run[k]);
    }
  }

  /** The newest version does not spread by exchanges of those who lack it. */
  lemma {:induction false} OthersNeverGet(h: Hashes, run: seq<Versions>, who: seq<nat>, m: File, a: nat, k: nat)
    requires IsExchangeRun(h, run, who) && a <= k < |run|
    requires run[a] != [] && run[a][|run[a]| - 1] != Some(m)
    requires forall t :: a <= t < k ==> who[t] < |run[a]| - 1 && run[a][who[t]] != Some(m)
    ensures |run[k]| == |run[a]|
    ensures forall j :: 0 <= j < |run[a]| ==> (run[k][j] == Some(m) <==> run[a][j] == Some(m))
    decreases k
  {
    if a < k {
      OthersNeverGet(h, run, who, m, a, k - 1);
      assert Exchange(h, run[k - 1], who[k - 1], run[k]);
    }
  }

  lemma {:induction false} Untouched(h: Hashes, run: seq<Versions>, who: seq<nat>, j: nat, a: nat, k: nat)
    requires IsExchangeRun(h, run, who) && a <= k < |run|
    requires j < |run[a]| - 1 && forall t :: a <= t < k ==> who[t] != j
    ensures |run[k]| == |run[a]| && run[k][j] == run[a][j]
    decreases k
  {
    hide Merged;
    if a < k {
      Untouched(h, run, who, j, a, k - 1);
      assert Exchange(h, run[k - 1], who[k - 1], run[k]);
    }
  }

  /** `hs` are the clients that hold `m`, `ns` the others. */
  ghost predicate Splits(a: Versions, m: File, hs: seq<nat>, ns: seq<nat>) {
    && a != []
    && (forall t :: 0 <= t < |hs| ==> hs[t] < |a| - 1 && a[hs[t]] == Some(m))
    && (forall t :: 0 <= t < |ns| ==> ns[t] < |a| - 1 && a[ns[t]] != Some(m))
    && (forall i :: 0 <= i < |a| - 1 ==> i in hs || i in ns)
  }

  /** If the newest version has a twin, two rounds in which its holders come first and then
      last leave some replica without it. */
  lemma TwinSpoils(h: Hashes, run: seq<Versions>, who: seq<nat>, m: File, hs: seq<nat>, ns: seq<nat>, j: nat)
    requires IsExchangeRun(h, run, who) && who == (hs + ns) + (ns + hs)
    requires Splits(run[0], m, hs, ns) && AllNotNewer(m, run[0]) && Some(m) in run[0]
    requires j < |run[0]| && Twin(h, m, run[0][j])
    ensures |run[|who|]| == |run[0]| && exists i :: 0 <= i < |run[0]| && run[|who|][i] != Some(m)
  {
    var n := |run[0]| - 1;
    SameLength(h, run, who, 0, |who|);
    hide Exchange, Merged;
    if run[0][n] == Some(m) {
      TwinStays(h, run, who, m, j, 0, |who|);
    } else if !Twin(h, m, run[0][n]) {
      HolderGoesFirst(h, run, who, m, hs, ns, j);
      TwinStays(h, run, who, m, j, 1, |who|);
    } else {
      TwinOnServer(h, run, who, m, hs, ns);
    }
  }

  lemma HolderGoesFirst(h: Hashes, run: seq<Versions>, who: seq<nat>, m: File, hs: seq<nat>, ns: seq<nat>, j: nat)
    requires IsExchangeRun(h, run, who) && who == (hs + ns) + (ns + hs)
    requires Splits(run[0], m, hs, ns) && AllNotNewer(m, run[0]) && Some(m) in run[0]
    requires j < |run[0]| && Twin(h, m, run[0][j])
    requires var server := run[0][|run[0]| - 1]; server != Some(m) && !Twin(h, m, server)
    ensures |run| > 1 && |run[1]| == |run[0]| && j < |run[0]| - 1 && run[1][|run[0]| - 1] == Some(m)
    ensures run[1][j] == run[0][j] && AllNotNewer(m, run[1])
  {
    var n := |run[0]| - 1;
    var i :| 0 <= i < n && run[0][i] == Some(m);
    assert i in hs;
    assert who[0] == hs[0];
    assert Exchange(h, run[0], who[0], run[1]);
    assert NotNewer(m, run[0][n]);
  }

  lemma TwinOnServer(h: Hashes, run: seq<Versions>, who: seq<nat>, m: File, hs: seq<nat>, ns: seq<nat>)
    requires IsExchangeRun(h, run, who) && who == (hs + ns) + (ns + hs)
    requires Splits(run[0], m, hs, ns) && Twin(h, m, run[0][|run[0]| - 1])
    ensures |run[|who|]| == |run[0]| && exists i :: 0 <= i < |run[0]| && run[|who|][i] != Some(m)
  {
    var a, b, n := |hs|, |hs| + 2 * |ns|, |run[0]| - 1;
    hide Exchange, Merged;
    assert forall t :: 0 <= t < a ==> who[t] == hs[t];
    HoldersSkip(h, run, who, m, 0, a);
    forall t | a <= t < b ensures who[t] < n && run[a][who[t]] != Some(m) {
      assert who[t] == if t < a + |ns| then ns[t - a] else ns[t - a - |ns|];
    }
    OthersNeverGet(h, run, who, m, a, b);
    assert forall t :: b <= t < |who| ==> who[t] == hs[t - b];
    if ns == [] {
      HoldersSkip(h, run, who, m, 0, |who|);
      assert run[|who|][n] != Some(m);
    } else {
      Untouched(h, run, who, ns[0], b, |who|);
      assert run[|who|][ns[0]] != Some(m);
    }
  }

  // ---------- Contents without timestamps ----------

  /** A version with the digest of `m`, itself included. */
  predicate Same(h: Hashes, m: File, o: Option<File>) {
    o.Some? && h.strong(o.value.content) == h.strong(m.content)
  }

  predicate Other(h: Hashes, m: File, o: Option<File>) {
    o.Some? && h.strong(o.value.content) != h.strong(m.content)
  }

  predicate NewerThan(o: Option<File>, o': Option<File>) {
    o.Some? && o'.Some? && o.value.modified.Newer(o'.value.modified)
  }

  /** What replica `j` holds is the server's, or the server would take it. */
  predicate Reaches(h: Hashes, m: File, a: Versions, j: nat)
    requires j < |a|
  {
    var server := a[|a| - 1];
    j == |a| - 1 || server.None? || (Other(h, m, server) && NewerThan(a[j], server))
  }

  /** `m` is strictly newer than every version with another digest, and so is every version
      with its digest that can reach the server. */
  ghost predicate Prevails(h: Hashes, m: File, a: Versions) {
    && (forall k :: 0 <= k < |a| && Other(h, m, a[k]) ==> NewerThan(Some(m), a[k]))
    && (forall j, k :: 0 <= j < |a| && 0 <= k < |a| && Same(h, m, a[j]) && Reaches(h, m, a, j) && Other(h, m, a[k]) ==>
          NewerThan(a[j], a[k]))
  }

  /** All replicas hold the same digest, or all hold nothing. */
  ghost predicate Agree(h: Hashes, a: Versions) {
    forall i, j :: 0 <= i < |a| && 0 <= j < |a| ==>
      (a[i].Some? <==> a[j].Some?) && (a[i].Some? ==> Same(h, a[i].value, a[j]))
  }

  /** What an exchange leaves at the two ends. */
  lemma PrevailsEnds(h: Hashes, a: Versions, i: nat, b: Versions, m: File)
    requires Exchange(h, a, i, b) && Prevails(h, m, a)
    ensures Same(h, m, a[|a| - 1]) ==> b[|a| - 1] == a[|a| - 1] && Same(h, m, b[i])
    ensures a[i] == Some(m) ==> b[i] == Some(m) && Same(h, m, b[|a| - 1])
    ensures a[|a| - 1] == Some(m) ==> b[|a| - 1] == Some(m)
  {
    var n := |a| - 1;
    assert Reaches(h, m, a, n);
    assert Same(h, m, a[n]) && Other(h, m, a[i]) ==> NewerThan(a[n], a[i]);
    assert Other(h, m, a[n]) ==> NewerThan(Some(m), a[n]);
  }

  lemma PrevailsStays(h: Hashes, a: Versions, i: nat, b: Versions, m: File)
    requires Exchange(h, a, i, b) && Prevails(h, m, a)
    ensures |b| == |a| && Prevails(h, m, b)
  {
    var n := |a| - 1;
    forall k | 0 <= k < |b| ensures b[k] == a[k] || b[k] == a[i] || b[k] == a[n] {}
    forall j, k | 0 <= j < |b| && 0 <= k < |b| && Same(h, m, b[j]) && Reaches(h, m, b, j) && Other(h, m, b[k])
      ensures NewerThan(b[j], b[k])
    {
      ReachedBefore(h, a, i, b, m, j);
    }
  }

  /** What can reach the server after an exchange could reach it before. */
  lemma ReachedBefore(h: Hashes, a: Versions, i: nat, b: Versions, m: File, j: nat)
    requires Exchange(h, a, i, b) && Prevails(h, m, a) && j < |a| && Same(h, m, b[j]) && Reaches(h, m, b, j)
    ensures exists l :: 0 <= l < |a| && a[l] == b[j] && Reaches(h, m, a, l)
  {
    var n := |a| - 1;
    if j == n || j == i {
      var l := if b[j] == a[n] then n else i;
      assert a[l] == b[j] && Reaches(h, m, a, l);
    } else {
      PrevailsEnds(h, a, i, b, m);
      assert a[j] == b[j] && Reaches(h, m, a, j);
    }
  }

  /** Once the server holds the digest it keeps it, and so does every client that has it. */
  lemma {:induction false} PrevailingRun(h: Hashes, run: seq<Versions>, who: seq<nat>, m: File, a: nat, k: nat)
    requires IsExchangeRun(h, run, who) && a <= k < |run| && run[a] != [] && Prevails(h, m, run[a])
    ensures |run[k]| == |run[a]| && Prevails(h, m, run[k])
    ensures Same(h, m, run[a][|run[a]| - 1]) ==> Same(h, m, run[k][|run[a]| - 1])
    ensures Same(h, m, run[a][|run[a]| - 1]) ==>
      forall j :: 0 <= j < |run[a]| && Same(h, m, run[a][j]) ==> Same(h, m, run[k][j])
    ensures forall j :: 0 <= j < |run[a]| && run[a][j] == Some(m) ==> run[k][j] == Some(m)
    decreases k
  {
    if a < k {
      PrevailingRun(h, run, who, m, a, k - 1);
      assert Exchange(h, run[k - 1], who[k - 1], run[k]);
      PrevailsEnds(h, run[k - 1], who[k - 1], run[k], m);
      PrevailsStays(h, run[k - 1], who[k - 1], run[k], m);
      hide Prevails, Merged;
    }
  }

  /** Once every client has exchanged, the server holds the digest of `m`. */
  lemma ServerAgrees(h: Hashes, run: seq<Versions>, who: seq<nat>, m: File, k: nat)
    requires IsExchangeRun(h, run, who) && k < |run| && run[0] != []
    requires Prevails(h, m, run[0]) && Some(m) in run[0]
    requires forall i :: 0 <= i < |run[0]| - 1 ==> i in who[..k]
    ensures |run[k]| == |run[0]| && Same(h, m, run[k][|run[0]| - 1])
  {
    var n := |run[0]| - 1;
    var i :| 0 <= i <= n && run[0][i] == Some(m);
    PrevailingRun(h, run, who, m, 0, k);
    if i < n {
      assert i in who[..k];
      var q :| 0 <= q < k && who[q] == i;
      PrevailingRun(h, run, who, m, 0, q);
      assert Exchange(h, run[q], who[q], run[q + 1]);
      PrevailsEnds(h, run[q], i, run[q + 1], m);
      PrevailsStays(h, run[q], i, run[q + 1], m);
      hide Prevails, Exchange, Same;
      PrevailingRun(h, run, who, m, q + 1, k);
    }
  }

  /** Once every client has exchanged, and then exchanged again, all hold the digest of `m`. */
  lemma EveryoneAgrees(h: Hashes, run: seq<Versions>, who: seq<nat>, m: File, k: nat, j: nat)
    requires IsExchangeRun(h, run, who) && k < |run|
    requires Prevails(h, m, run[0]) && Some(m) in run[0]
    requires forall i :: 0 <= i < |run[0]| - 1 ==> i in who[..k] && i in who[k..]
    requires j < |run[0]|
    ensures |run[|who|]| == |run[0]| && Same(h, m, run[|who|][j])
  {
    var n := |run[0]| - 1;
    ServerAgrees(h, run, who, m, k);
    PrevailingRun(h, run, who, m, 0, k);
    PrevailingRun(h, run, who, m, k, |who|);
    if j < n {
      assert j in who[k..];
      var q :| 0 <= q < |who[k..]| && who[k..][q] == j;
      PrevailingRun(h, run, who, m, k, k + q);
      assert Exchange(h, run[k + q], who[k + q], run[k + q + 1]);
      PrevailsEnds(h, run[k + q], j, run[k + q + 1], m);
      PrevailsStays(h, run[k + q], j, run[k + q + 1], m);
      hide Prevails, Exchange, Same;
      PrevailingRun(h, run, who, m, k + q + 1, |who|);
    }
  }

  // ---------- Contents that do not come together ----------

  /** No version is newer. */
  ghost predicate Newest(m: File, a: Versions) {
    forall j :: 0 <= j < |a| ==> !NewerThan(a[j], Some(m))
  }

  lemma {:induction false} NewestExists(a: Versions, j: nat) returns (m: File)
    requires j < |a| && a[j].Some?
    ensures Some(m) in a && Newest(m, a)
    decreases |a|
  {
    var rest := a[..|a| - 1];
    var last := a[|a| - 1];
    if k :| 0 <= k < |rest| && rest[k].Some? {
      m := NewestExists(rest, k);
      if NewerThan(last, Some(m)) {
        m := last.value;
      }
    } else {
      m := last.value;
    }
    assert a == rest + [last];
  }

  /** A newest version stays where it is, whatever is exchanged. */
  lemma {:induction false} NewestStays(h: Hashes, run: seq<Versions>, who: seq<nat>, m: File, j: nat, k: nat)
    requires IsExchangeRun(h, run, who) && k < |run|
    requires j < |run[0]| && run[0][j] == Some(m) && Newest(m, run[0])
    ensures |run[k]| == |run[0]| && run[k][j] == Some(m) && Newest(m, run[k])
  {
    if k > 0 {
      NewestStays(h, run, who, m, j, k - 1);
      assert Exchange(h, run[k - 1], who[k - 1], run[k]);
      var i, n := who[k - 1], |run[0]| - 1;
      assert !NewerThan(run[k - 1][i], Some(m)) && !NewerThan(run[k - 1][n], Some(m));
    }
  }

  /** Clients with the server's digest exchange nothing with it. */
  lemma {:induction false} SameSkip(h: Hashes, run: seq<Versions>, who: seq<nat>, m: File, a: nat, k: nat)
    requires IsExchangeRun(h, run, who) && a <= k < |run|
    requires run[a] != [] && Same(h, m, run[a][|run[a]| - 1])
    requires forall t :: a <= t < k ==> who[t] < |run[a]| - 1 && Same(h, m, run[a][who[t]])
    ensures run[k] == run[a]
    decreases k
  {
    if a < k {
      SameSkip(h, run, who, m, a, k - 1);
      assert Exchange(h, run[k - 1], who[k - 1], run[k]);
    }
  }

  /** Client `c` holds another digest, and nothing with the digest of `m` on the server or on
      the clients outside `apart` is newer. */
  ghost predicate Resists(h: Hashes, m: File, apart: set<nat>, c: nat, a: Versions) {
    && c < |a| - 1 && c !in apart && Other(h, m, a[c])
    && forall j :: 0 <= j < |a| && j !in apart && Same(h, m, a[j]) ==> !NewerThan(a[j], a[c])
  }

  /** While only clients outside `apart` exchange, the client keeps resisting. */
  lemma {:induction false} ResistsOn(h: Hashes, run: seq<Versions>, who: seq<nat>, m: File, apart: set<nat>, c: nat,
                                     a: nat, k: nat)
    requires IsExchangeRun(h, run, who) && a <= k < |run| && Resists(h, m, apart, c, run[a])
    requires |run[a]| - 1 !in apart && forall t :: a <= t < k ==> who[t] !in apart
    ensures |run[k]| == |run[a]| && Resists(h, m, apart, c, run[k])
    decreases k
  {
    if a < k {
      ResistsOn(h, run, who, m, apart, c, a, k - 1);
      assert Exchange(h, run[k - 1], who[k - 1], run[k]);
      ResistsStep(h, run[k - 1], who[k - 1], run[k], m, apart, c);
    }
  }

  lemma ResistsStep(h: Hashes, a: Versions, i: nat, b: Versions, m: File, apart: set<nat>, c: nat)
    requires Exchange(h, a, i, b) && Resists(h, m, apart, c, a) && i !in apart && |a| - 1 !in apart
    ensures |b| == |a| && Resists(h, m, apart, c, b)
  {
    var n := |a| - 1;
    assert Same(h, m, a[i]) ==> !NewerThan(a[i], a[c]);
    assert Same(h, m, a[n]) ==> !NewerThan(a[n], a[c]);
    assert forall k :: 0 <= k < |b| && k != i && k != n ==> b[k] == a[k];
    assert !NewerThan(a[c], b[c]);
  }

  /** Two newest versions with different digests never come together. */
  lemma TieDiffers(h: Hashes, run: seq<Versions>, who: seq<nat>, m: File, c: nat)
    requires IsExchangeRun(h, run, who) && Newest(m, run[0]) && Some(m) in run[0]
    requires c < |run[0]| && Other(h, m, run[0][c]) && !NewerThan(Some(m), run[0][c])
    ensures !Agree(h, run[|who|])
  {
    var i :| 0 <= i < |run[0]| && run[0][i] == Some(m);
    var o := run[0][c].value;
    assert Newest(o, run[0]) by {
      forall j | 0 <= j < |run[0]| ensures !NewerThan(run[0][j], Some(o)) {
        assert !NewerThan(run[0][j], Some(m)) && !NewerThan(run[0][c], Some(m));
      }
    }
    NewestStays(h, run, who, m, i, |who|);
    NewestStays(h, run, who, o, c, |who|);
  }

  /** `hs` are clients with the digest of `m`, `ns` clients without it. */
  ghost predicate Parts(h: Hashes, a: Versions, m: File, hs: seq<nat>, ns: seq<nat>) {
    && a != []
    && (forall t :: 0 <= t < |hs| ==> hs[t] < |a| - 1 && Same(h, m, a[hs[t]]))
    && (forall t :: 0 <= t < |ns| ==> ns[t] < |a| - 1 && !Same(h, m, a[ns[t]]))
  }

  function Apart(h: Hashes, a: Versions, m: File): set<nat> {
    set i | 0 <= i < |a| - 1 && Same(h, m, a[i])
  }

  /** After the first syncs the server holds an old version with the newest digest, and some
      client another that is not older. */
  lemma OldReachesServer(h: Hashes, run: seq<Versions>, who: seq<nat>, m: File, first: seq<nat>, j: nat, c: nat)
    requires IsExchangeRun(h, run, who) && first <= who && Parts(h, run[0], m, first, [])
    requires j < |run[0]| && c < |run[0]| && Same(h, m, run[0][j]) && Reaches(h, m, run[0], j)
    requires Other(h, m, run[0][c]) && !NewerThan(run[0][j], run[0][c])
    requires j < |run[0]| - 1 ==> first != [] && first[0] == j
    ensures |run[|first|]| == |run[0]| && Resists(h, m, Apart(h, run[0], m), c, run[|first|])
  {
    var a, n := run[0], |run[0]| - 1;
    assert forall t :: 0 <= t < |first| ==> who[t] == first[t];
    if j == n {
      SameSkip(h, run, who, m, 0, |first|);
    } else {
      assert Exchange(h, a, j, run[1]);
      assert run[1] == a[n := a[j]];
      SameSkip(h, run, who, m, 1, |first|);
    }
  }

  /** If a version with the newest digest that can reach the server is not newer than some
      version with another digest, two rounds that begin with it leave the digests different. */
  lemma ReachedDiffers(h: Hashes, run: seq<Versions>, who: seq<nat>, m: File,
                       first: seq<nat>, ns: seq<nat>, hs: seq<nat>, j: nat, c: nat)
    requires IsExchangeRun(h, run, who) && who == (first + ns) + (ns + hs) && Newest(m, run[0]) && Some(m) in run[0]
    requires Parts(h, run[0], m, first, ns) && Parts(h, run[0], m, hs, ns)
    requires j < |run[0]| && c < |run[0]| && Same(h, m, run[0][j]) && Reaches(h, m, run[0], j)
    requires Other(h, m, run[0][c]) && !NewerThan(run[0][j], run[0][c])
    requires j < |run[0]| - 1 ==> first != [] && first[0] == j
    ensures !Agree(h, run[|who|])
  {
    var a, b, n, apart := |first|, |first| + 2 * |ns|, |run[0]| - 1, Apart(h, run[0], m);
    assert first <= who;
    OldReachesServer(h, run, who, m, first, j, c);
    var i :| 0 <= i <= n && run[0][i] == Some(m);
    NewestStays(h, run, who, m, i, |who|);
    assert n !in apart && c !in apart;
    forall t | a <= t < b ensures who[t] !in apart {
      assert who[t] == if t < a + |ns| then ns[t - a] else ns[t - a - |ns|];
    }
    ResistsOn(h, run, who, m, apart, c, a, b);
    assert forall t :: b <= t < |who| ==> who[t] == hs[t - b];
    Untouched(h, run, who, c, b, |who|);
  }
}
