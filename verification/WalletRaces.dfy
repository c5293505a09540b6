/** The same check with its membership test and its removal as separate steps of any number of threads. */
module WalletRaces {
  import opened Prelude

  datatype State = State(outstanding: set<Bytes>, removing: map<nat, Bytes>)

  datatype Action =
    | Add(hash: Bytes)
    | Read(tid: nat, hash: Bytes)
    | Flush(tid: nat)

  /** The verdict a check reaches at an action: at its read when the hash is missing, otherwise after its removal. */
  datatype Verdict = Pending | Refused(missing: Bytes) | Granted(hash: Bytes)

  function Do(s: State, a: Action): (State, Verdict) {
    match a
    case Add(hash) => (s.(outstanding := s.outstanding + {hash}), Pending)
    case Read(tid, hash) =>
      if tid in s.removing then (s, Pending)
      else if hash in s.outstanding then (s.(removing := s.removing[tid := hash]), Pending)
      else (s, Refused(hash))
    case Flush(tid) =>
      if tid !in s.removing then (s, Pending)
      else (State(s.outstanding - {s.removing[tid]}, s.removing - {tid}), Granted(s.removing[tid]))
  }

  function Run(acts: seq<Action>): State {
    if acts == [] then State({}, map[])
    else Do(Run(acts[..|acts| - 1]), acts[|acts| - 1]).0
  }

  function VerdictAt(acts: seq<Action>, i: nat): Verdict
    requires i < |acts|
  {
    Do(Run(acts[..i]), acts[i]).1
  }

  predicate AddedIn(acts: seq<Action>, i: nat, j: nat, hash: Bytes)
    requires i <= j <= |acts|
  {
    exists k :: i <= k < j && acts[k] == Add(hash)
  }

  lemma {:induction false} HeldWasAdded(acts: seq<Action>, hash: Bytes)
    ensures hash in Run(acts).outstanding || hash in Run(acts).removing.Values ==> AddedIn(acts, 0, |acts|, hash)
    decreases |acts|
  {
    if acts != [] {
      var before := acts[..|acts| - 1];
      HeldWasAdded(before, hash);
      if AddedIn(before, 0, |before|, hash) {
        var k :| 0 <= k < |before| && before[k] == Add(hash);
        assert acts[k] == Add(hash);
      } else {
        assert acts[|acts| - 1] == Add(hash) ==> AddedIn(acts, 0, |acts|, hash);
      }
    }
  }

  /** Every successful check is of an address the server had issued. */
  lemma GrantedWasIssued(acts: seq<Action>, i: nat)
    requires i < |acts| && VerdictAt(acts, i).Granted?
    ensures AddedIn(acts, 0, i, VerdictAt(acts, i).hash)
  {
    var s := Run(acts[..i]);
    assert s.removing[acts[i].tid] in s.removing.Values;
    HeldWasAdded(acts[..i], VerdictAt(acts, i).hash);
    var k :| 0 <= k < i && acts[..i][k] == Add(VerdictAt(acts, i).hash);
    assert acts[k] == Add(VerdictAt(acts, i).hash);
  }

  lemma {:induction false} StaysOut(acts: seq<Action>, i: nat, j: nat, hash: Bytes)
    requires i < j <= |acts| && VerdictAt(acts, i) == Granted(hash)
    requires !AddedIn(acts, i, j, hash)
    ensures hash !in Run(acts[..j]).outstanding
    decreases j
  {
    assert acts[..j][..j - 1] == acts[..j - 1];
    if j > i + 1 {
      StaysOut(acts, i, j - 1, hash);
      assert acts[j - 1] != Add(hash);
    }
  }

  /** Once a check of a hash has succeeded, every check that reads later fails, until the hash is added again. */
  lemma GrantedThenRefused(acts: seq<Action>, i: nat, j: nat, hash: Bytes)
    requires i < j < |acts| && VerdictAt(acts, i) == Granted(hash)
    requires acts[j].Read? && acts[j].hash == hash && acts[j].tid !in Run(acts[..j]).removing
    ensures VerdictAt(acts, j) == Refused(hash) || AddedIn(acts, i, j, hash)
  {
    if !AddedIn(acts, i, j, hash) {
      StaysOut(acts, i, j, hash);
    }
  }

  // ---- How many checks of one hash succeed ----

  /** Action `f` is the first removal by the thread after its read at `j`. */
  predicate Completes(acts: seq<Action>, j: nat, f: nat, tid: nat) {
    && j < f < |acts| && acts[f] == Flush(tid)
    && forall k :: j < k < f ==> acts[k] != Flush(tid)
  }

  lemma NextRun(acts: seq<Action>, n: nat)
    requires n < |acts|
    ensures Run(acts[..n + 1]) == Do(Run(acts[..n]), acts[n]).0
  {
    assert acts[..n + 1][..n] == acts[..n];
  }

  lemma {:induction false} KeepsRemoving(acts: seq<Action>, j: nat, n: nat, tid: nat, hash: Bytes)
    requires j < n <= |acts| && acts[j] == Read(tid, hash)
    requires tid !in Run(acts[..j]).removing && hash in Run(acts[..j]).outstanding
    requires forall k :: j < k < n ==> acts[k] != Flush(tid)
    ensures tid in Run(acts[..n]).removing && Run(acts[..n]).removing[tid] == hash
    decreases n
  {
    NextRun(acts, n - 1);
    if j < n - 1 {
      KeepsRemoving(acts, j, n - 1, tid, hash);
      assert acts[n - 1] != Flush(tid);
    }
  }

  /** A check succeeds just when its hash was outstanding as it read, whatever happened before its removal. */
  lemma CheckSucceedsIff(acts: seq<Action>, j: nat, f: nat, tid: nat, hash: Bytes)
    requires Completes(acts, j, f, tid) && acts[j] == Read(tid, hash) && tid !in Run(acts[..j]).removing
    ensures if hash in Run(acts[..j]).outstanding
            then VerdictAt(acts, j) == Pending && VerdictAt(acts, f) == Granted(hash)
            else VerdictAt(acts, j) == Refused(hash)
  {
    if hash in Run(acts[..j]).outstanding {
      KeepsRemoving(acts, j, f, tid, hash);
    }
  }

  predicate GrantedIn(acts: seq<Action>, i: nat, j: nat, hash: Bytes)
    requires i <= j <= |acts|
  {
    exists k :: i <= k < j && VerdictAt(acts, k) == Granted(hash)
  }

  lemma {:induction false} OutstandingUntilGranted(acts: seq<Action>, i: nat, j: nat, hash: Bytes)
    requires i <= j <= |acts| && hash in Run(acts[..i]).outstanding && !AddedIn(acts, i, j, hash)
    ensures hash in Run(acts[..j]).outstanding <==> !GrantedIn(acts, i, j, hash)
    decreases j
  {
    if i < j {
      assert acts[j - 1] != Add(hash);
      OutstandingUntilGranted(acts, i, j - 1, hash);
      NextRun(acts, j - 1);
      assert GrantedIn(acts, i, j, hash) <==> GrantedIn(acts, i, j - 1, hash) || VerdictAt(acts, j - 1) == Granted(hash);
    }
  }

  /**
   One invoice, two checks. When the first has read the hash as outstanding and the hash is not issued again, the
   second succeeds as well just when no check of it has completed by the time the second reads, and is refused otherwise.
   */
  lemma BothChecksSucceedIff(
    acts: seq<Action>, j: nat, f: nat, tid: nat, j': nat, f': nat, tid': nat, hash: Bytes)
    requires Completes(acts, j, f, tid) && acts[j] == Read(tid, hash) && tid !in Run(acts[..j]).removing
    requires Completes(acts, j', f', tid') && acts[j'] == Read(tid', hash) && tid' !in Run(acts[..j']).removing
    requires j < j' && hash in Run(acts[..j]).outstanding && !AddedIn(acts, j, j', hash)
    ensures VerdictAt(acts, f) == Granted(hash)
    ensures if GrantedIn(acts, j, j', hash) then VerdictAt(acts, j') == Refused(hash)
            else VerdictAt(acts, j') == Pending && VerdictAt(acts, f') == Granted(hash)
    ensures f < j' ==> VerdictAt(acts, j') == Refused(hash)
  {
    CheckSucceedsIff(acts, j, f, tid, hash);
    CheckSucceedsIff(acts, j', f', tid', hash);
    OutstandingUntilGranted(acts, j, j', hash);
  }

  /** Reads that precede the removal are another matter: two checks of one invoice can both succeed. */
  lemma TwoChecksCanSucceed(hash: Bytes)
    ensures var acts := [Add(hash), Read(0, hash), Read(1, hash), Flush(0), Flush(1)];
            VerdictAt(acts, 3) == Granted(hash) && VerdictAt(acts, 4) == Granted(hash)
  {
    var acts := [Add(hash), Read(0, hash), Read(1, hash), Flush(0), Flush(1)];
    assert acts[..1] == [Add(hash)] && acts[..1][..0] == [];
    assert Run(acts[..1]) == State({hash}, map[]);
    assert acts[..2][..1] == acts[..1];
    assert Run(acts[..2]) == State({hash}, map[0 := hash]);
    assert acts[..3][..2] == acts[..2];
    assert Run(acts[..3]) == State({hash}, map[0 := hash, 1 := hash]);
    assert acts[..4][..3] == acts[..3];
    assert Run(acts[..4]).removing[1] == hash;
  }
}
