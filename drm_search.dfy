// DrmGpu::findWorkingCombination: the backtracking search that pairs each
// connected connector with a CRTC and keeps the first combination the kernel
// accepts in a test-only atomic commit.
//
// The kernel's verdict (DrmPipeline::commitPipelines in Test mode, reached
// through commitCombination) is the oracle `test`; the search itself is pure.
module DrmSearch {
  import opened Common
  import opened DrmObjects

  /** A DrmPipeline created during the search: one connector on one CRTC. */
  datatype Hyp = Hyp(connector: Connector, crtc: Crtc)

  function CrtcsOf(hs: seq<Hyp>): (r: seq<Crtc>)
    ensures |r| == |hs|
    ensures forall i :: 0 <= i < |hs| ==> r[i] == hs[i].crtc
  {
    if hs == [] then [] else [hs[0].crtc] + CrtcsOf(hs[1..])
  }

  /** Index of the first CRTC with the given id. */
  function IndexOfCrtc(cs: seq<Crtc>, id: nat): (r: Option<nat>)
    ensures r.None? <==> forall i :: 0 <= i < |cs| ==> cs[i].id != id
    ensures r.Some? ==> r.value < |cs| && cs[r.value].id == id
    ensures r.Some? ==> forall i :: 0 <= i < r.value ==> cs[i].id != id
  {
    if cs == [] then None
    else if cs[0].id == id then Some(0)
    else match IndexOfCrtc(cs[1..], id)
      case None => None
      case Some(k) => Some(k + 1)
  }

  /**
   * The CRTC order the atomic-mode std::sort produces. Its comparator calls
   * c1 "less" exactly when c1 is the connector's current CRTC, which is not a
   * strict weak ordering; the model moves the current CRTC to the front and
   * keeps the others in their original order (what an insertion sort does
   * with that comparator). Only "current CRTC first" is relied upon.
   */
  function HintFirst(cs: seq<Crtc>, hint: nat): (r: seq<Crtc>)
    ensures multiset(r) == multiset(cs)
    ensures |r| == |cs|
  {
    match IndexOfCrtc(cs, hint)
    case None => cs
    case Some(k) =>
      assert cs == cs[..k] + [cs[k]] + cs[k+1..];
      [cs[k]] + cs[..k] + cs[k+1..]
  }

  function Arrange(atomic: bool, connector: Connector, crtcs: seq<Crtc>): seq<Crtc>
  {
    if atomic then HintFirst(crtcs, connector.crtcHint) else crtcs
  }

  /**
   * findWorkingCombination(pipelines, connectors, crtcs). An empty result
   * means failure; a non-empty one is the configuration that passed `test`.
   */
  function FindWorkingCombination(atomic: bool, test: seq<Hyp> -> bool, pipelines: seq<Hyp>,
                                  connectors: seq<Connector>, crtcs: seq<Crtc>): seq<Hyp>
    decreases |connectors|, 2, 0
  {
    if |connectors| == 0 || |crtcs| == 0 then
      if |pipelines| == 0 || test(pipelines) then pipelines else []
    else
      var connector := connectors[0];
      TryEncoders(atomic, test, pipelines, connector, connectors[1..],
                  Arrange(atomic, connector, crtcs), connector.encoders)
  }

  /** The outer loop over the connector's encoders; each one retries every CRTC. */
  function TryEncoders(atomic: bool, test: seq<Hyp> -> bool, pipelines: seq<Hyp>, connector: Connector,
                       rest: seq<Connector>, crtcs: seq<Crtc>, encoders: seq<nat>): seq<Hyp>
    decreases |rest| + 1, 1, |encoders|
  {
    if encoders == [] then []
    else
      var r := TryCrtcs(atomic, test, pipelines, connector, rest, crtcs, 0);
      if r != [] then r else TryEncoders(atomic, test, pipelines, connector, rest, crtcs, encoders[1..])
  }

  /** The inner loop over the (arranged) CRTCs, from index i on. */
  function TryCrtcs(atomic: bool, test: seq<Hyp> -> bool, pipelines: seq<Hyp>, connector: Connector,
                    rest: seq<Connector>, crtcs: seq<Crtc>, i: nat): seq<Hyp>
    decreases |rest| + 1, 0, |crtcs| - i
  {
    if i >= |crtcs| then []
    else
      var r := Branch(atomic, test, pipelines, connector, rest, crtcs, crtcs[i]);
      if r != [] then r else TryCrtcs(atomic, test, pipelines, connector, rest, crtcs, i + 1)
  }

  /** The `recurse` lambda: put the connector on `crtc` and search on with the CRTCs left. */
  function Branch(atomic: bool, test: seq<Hyp> -> bool, pipelines: seq<Hyp>, connector: Connector,
                  rest: seq<Connector>, crtcs: seq<Crtc>, crtc: Crtc): seq<Hyp>
    decreases |rest| + 1, 0, 0
  {
    FindWorkingCombination(atomic, test, pipelines + [Hyp(connector, crtc)], rest, RemoveOne(crtcs, crtc))
  }

  // ---------------------------------------------------------------------
  // The shape of a successful result.

  /** What a non-empty result of the search looks like, given accumulator P, connectors C and CRTCs K. */
  ghost predicate WellShaped(test: seq<Hyp> -> bool, P: seq<Hyp>, C: seq<Connector>, K: seq<Crtc>, r: seq<Hyp>)
  {
    && |r| == |P| + Min(|C|, |K|)
    && r[..|P|] == P
    && (forall j :: |P| <= j < |r| ==> r[j].connector == C[j - |P|])
    && multiset(CrtcsOf(r[|P|..])) <= multiset(K)
    && test(r)
  }

  lemma CrtcsOfCons(h: Hyp, t: seq<Hyp>)
    ensures CrtcsOf([h] + t) == [h.crtc] + CrtcsOf(t)
  {
    assert ([h] + t)[1..] == t;
  }

  /**
   * A non-empty result extends the accumulator by one pipeline per connector,
   * taking the connectors in input order, until connectors or CRTCs run out;
   * it never uses a CRTC more often than it is offered, and it passed the test.
   */
  lemma {:induction false} SearchShape(atomic: bool, test: seq<Hyp> -> bool, P: seq<Hyp>, C: seq<Connector>, K: seq<Crtc>)
    ensures var r := FindWorkingCombination(atomic, test, P, C, K);
            r != [] ==> WellShaped(test, P, C, K, r)
    decreases |C|, 2, 0
  {
    var r := FindWorkingCombination(atomic, test, P, C, K);
    if |C| == 0 || |K| == 0 {
      if r != [] {
        assert r == P;
        assert r[|P|..] == [];
      }
    } else {
      var A := Arrange(atomic, C[0], K);
      EncodersShape(atomic, test, P, C[0], C[1..], A, C[0].encoders);
      if r != [] {
        assert multiset(A) == multiset(K);
        forall j | |P| <= j < |r| ensures r[j].connector == C[j - |P|] {
          if j > |P| {
            assert C[1..][j - |P| - 1] == C[j - |P|];
          }
        }
      }
    }
  }

  /** The shape of a non-empty result of one connector's CRTC loop, started at any index. */
  ghost predicate BranchShaped(test: seq<Hyp> -> bool, P: seq<Hyp>, conn: Connector, rest: seq<Connector>, K: seq<Crtc>, r: seq<Hyp>)
  {
    && |K| > 0 && |r| > |P|
    && WellShaped(test, P + [r[|P|]], rest, RemoveOne(K, r[|P|].crtc), r)
    && r[|P|].connector == conn
    && r[|P|].crtc in K
  }

  lemma {:induction false} EncodersShape(atomic: bool, test: seq<Hyp> -> bool, P: seq<Hyp>, conn: Connector,
                                         rest: seq<Connector>, K: seq<Crtc>, encoders: seq<nat>)
    ensures var r := TryEncoders(atomic, test, P, conn, rest, K, encoders);
            r != [] ==> WellShaped(test, P, [conn] + rest, K, r)
    decreases |rest| + 1, 1, |encoders|
  {
    if encoders != [] {
      var r0 := TryCrtcs(atomic, test, P, conn, rest, K, 0);
      CrtcsShape(atomic, test, P, conn, rest, K, 0);
      if r0 != [] {
        BranchToWell(test, P, conn, rest, K, r0);
      } else {
        EncodersShape(atomic, test, P, conn, rest, K, encoders[1..]);
      }
    }
  }

  lemma BranchToWell(test: seq<Hyp> -> bool, P: seq<Hyp>, conn: Connector, rest: seq<Connector>, K: seq<Crtc>, r: seq<Hyp>)
    requires |r| > |P|
    requires BranchShaped(test, P, conn, rest, K, r)
    ensures WellShaped(test, P, [conn] + rest, K, r)
  {
    var h := r[|P|];
    var K' := RemoveOne(K, h.crtc);
    assert |K'| == |K| - 1;
    assert |r| == |P| + Min(|[conn] + rest|, |K|);
    assert r[..|P|] == (P + [h])[..|P|] == P by {
      assert r[..|P|] == r[..|P| + 1][..|P|];
    }
    forall j | |P| <= j < |r| ensures r[j].connector == ([conn] + rest)[j - |P|] {
    }
    assert r[|P|..] == [h] + r[|P| + 1..];
    CrtcsOfCons(h, r[|P| + 1..]);
    assert multiset(CrtcsOf(r[|P| + 1..])) <= multiset(K');
    RemoveOneMultiset(K, h.crtc);
    assert h.crtc in multiset(K);
  }

  lemma {:induction false} CrtcsShape(atomic: bool, test: seq<Hyp> -> bool, P: seq<Hyp>, conn: Connector,
                                      rest: seq<Connector>, K: seq<Crtc>, i: nat)
    ensures var r := TryCrtcs(atomic, test, P, conn, rest, K, i);
            r != [] ==> |r| > |P| && BranchShaped(test, P, conn, rest, K, r)
    decreases |rest| + 1, 0, |K| - i
  {
    if i < |K| {
      var c := K[i];
      var b := Branch(atomic, test, P, conn, rest, K, c);
      SearchShape(atomic, test, P + [Hyp(conn, c)], rest, RemoveOne(K, c));
      if b != [] {
        var n := |P| + 1;
        assert b[..n] == P + [Hyp(conn, c)];
        assert b[|P|] == b[..n][|P|];
      } else {
        CrtcsShape(atomic, test, P, conn, rest, K, i + 1);
      }
    }
  }

  // ---------------------------------------------------------------------
  // Consequences for the caller, which starts with no pipelines.

  /**
   * A configuration found from scratch is non-empty only when there was a
   * connector and a CRTC to pair; it holds min(|C|, |K|) pipelines for the
   * first connectors in order, on distinct CRTCs taken from K, and the test
   * commit accepted it.
   */
  lemma SearchFromScratch(atomic: bool, test: seq<Hyp> -> bool, C: seq<Connector>, K: seq<Crtc>)
    requires NoDup(K)
    ensures var r := FindWorkingCombination(atomic, test, [], C, K);
            r != [] ==>
              && |C| > 0 && |K| > 0
              && |r| == Min(|C|, |K|)
              && (forall j :: 0 <= j < |r| ==> r[j].connector == C[j] && r[j].crtc in K)
              && NoDup(CrtcsOf(r))
              && test(r)
  {
    var r := FindWorkingCombination(atomic, test, [], C, K);
    SearchShape(atomic, test, [], C, K);
    if r != [] {
      assert r[0..] == r;
      MultisetNoDup(CrtcsOf(r), K);
      forall j | 0 <= j < |r| ensures r[j].crtc in K {
        assert CrtcsOf(r)[j] in multiset(CrtcsOf(r));
      }
    }
  }

  // ---------------------------------------------------------------------
  // Search order.

  /**
   * The per-encoder loop does not filter CRTCs: with at least one encoder
   * the result is that of one pass over the CRTCs, and a connector without
   * encoders fails its branch.
   */
  lemma {:induction false} EncodersRetrySameCrtcs(atomic: bool, test: seq<Hyp> -> bool, P: seq<Hyp>, conn: Connector,
                                                  rest: seq<Connector>, K: seq<Crtc>, encoders: seq<nat>)
    ensures TryEncoders(atomic, test, P, conn, rest, K, encoders)
            == if encoders == [] then [] else TryCrtcs(atomic, test, P, conn, rest, K, 0)
    decreases |encoders|
  {
    if encoders != [] && TryCrtcs(atomic, test, P, conn, rest, K, 0) == [] {
      EncodersRetrySameCrtcs(atomic, test, P, conn, rest, K, encoders[1..]);
    }
  }

  /**
   * The CRTC loop returns the first branch that succeeds, and fails only
   * when every branch from index i on fails.
   */
  lemma {:induction false} FirstSuccessfulBranch(atomic: bool, test: seq<Hyp> -> bool, P: seq<Hyp>, conn: Connector,
                                                 rest: seq<Connector>, K: seq<Crtc>, i: nat)
    ensures var r := TryCrtcs(atomic, test, P, conn, rest, K, i);
            && (r == [] <==> forall j :: i <= j < |K| ==> Branch(atomic, test, P, conn, rest, K, K[j]) == [])
            && (r != [] ==> exists j :: i <= j < |K| && r == Branch(atomic, test, P, conn, rest, K, K[j])
                             && forall k :: i <= k < j ==> Branch(atomic, test, P, conn, rest, K, K[k]) == [])
    decreases |K| - i
  {
    if i < |K| && Branch(atomic, test, P, conn, rest, K, K[i]) == [] {
      FirstSuccessfulBranch(atomic, test, P, conn, rest, K, i + 1);
      var r := TryCrtcs(atomic, test, P, conn, rest, K, i + 1);
      if r != [] {
        var j :| i + 1 <= j < |K| && r == Branch(atomic, test, P, conn, rest, K, K[j])
                 && forall k :: i + 1 <= k < j ==> Branch(atomic, test, P, conn, rest, K, K[k]) == [];
        assert forall k :: i <= k < j ==> Branch(atomic, test, P, conn, rest, K, K[k]) == [];
      }
    }
  }

  lemma HintFirstRemoves(K: seq<Crtc>, hint: nat, k: nat)
    requires IndexOfCrtc(K, hint) == Some(k)
    ensures HintFirst(K, hint)[0] == K[k]
    ensures HintFirst(K, hint)[1..] == RemoveOne(K, K[k])
  {
    RemoveFirstAt(K, k);
    assert HintFirst(K, hint) == [K[k]] + (K[..k] + K[k+1..]);
  }

  lemma {:induction false} RemoveFirstAt(K: seq<Crtc>, k: nat)
    requires k < |K|
    requires forall i :: 0 <= i < k ==> K[i].id != K[k].id
    ensures RemoveOne(K, K[k]) == K[..k] + K[k+1..]
  {
    if k > 0 {
      var t := K[1..];
      var x := K[k];
      assert t[k - 1] == x;
      assert RemoveOne(K, x) == [K[0]] + RemoveOne(t, x) by {
        assert K[0].id != x.id;
      }
      assert RemoveOne(t, x) == t[..k - 1] + t[k..] by {
        forall i | 0 <= i < k - 1 ensures t[i].id != t[k - 1].id {
          assert t[i] == K[i + 1];
        }
        RemoveFirstAt(t, k - 1);
      }
      assert K[..k] + K[k + 1..] == [K[0]] + (t[..k - 1] + t[k..]) by {
        assert K[..k] == [K[0]] + t[..k - 1];
        assert K[k + 1..] == t[k..];
      }
    }
  }

  /**
   * In atomic mode the CRTC the connector already drives is tried first:
   * when the connector has an encoder and the branch that keeps it on that
   * CRTC succeeds, that branch is the result.
   */
  lemma CurrentCrtcTriedFirst(test: seq<Hyp> -> bool, P: seq<Hyp>, C: seq<Connector>, K: seq<Crtc>, current: Crtc)
    requires |C| > 0 && |C[0].encoders| > 0
    requires current in K && current.id == C[0].crtcHint
    requires forall i, j :: 0 <= i < j < |K| ==> K[i].id != K[j].id
    requires FindWorkingCombination(true, test, P + [Hyp(C[0], current)], C[1..], RemoveOne(K, current)) != []
    ensures FindWorkingCombination(true, test, P, C, K)
            == FindWorkingCombination(true, test, P + [Hyp(C[0], current)], C[1..], RemoveOne(K, current))
  {
    var hint := C[0].crtcHint;
    var k := IndexOfCrtc(K, hint).value;
    assert K[k] == current;
    var A := HintFirst(K, hint);
    HintFirstRemoves(K, hint, k);
    assert RemoveOne(A, A[0]) == A[1..];
    assert A == Arrange(true, C[0], K);
    var rest := FindWorkingCombination(true, test, P + [Hyp(C[0], current)], C[1..], RemoveOne(K, current));
    assert Branch(true, test, P, C[0], C[1..], A, A[0]) == rest;
    assert TryCrtcs(true, test, P, C[0], C[1..], A, 0) == rest;
    EncodersRetrySameCrtcs(true, test, P, C[0], C[1..], A, C[0].encoders);
    assert FindWorkingCombination(true, test, P, C, K) == TryEncoders(true, test, P, C[0], C[1..], A, C[0].encoders);
  }

  /** In legacy mode the CRTCs are tried in the order given. */
  lemma LegacyTriesInOrder(test: seq<Hyp> -> bool, P: seq<Hyp>, C: seq<Connector>, K: seq<Crtc>)
    requires |C| > 0 && |C[0].encoders| > 0 && |K| > 0
    requires FindWorkingCombination(false, test, P + [Hyp(C[0], K[0])], C[1..], K[1..]) != []
    ensures FindWorkingCombination(false, test, P, C, K)
            == FindWorkingCombination(false, test, P + [Hyp(C[0], K[0])], C[1..], K[1..])
  {
    assert RemoveOne(K, K[0]) == K[1..];
    EncodersRetrySameCrtcs(false, test, P, C[0], C[1..], K, C[0].encoders);
  }

  // ---------------------------------------------------------------------
  // Completeness: the search misses no working placement.

  /** Pair the first |crtcs| connectors with the given CRTCs. */
  function Place(C: seq<Connector>, crtcs: seq<Crtc>): (r: seq<Hyp>)
    requires |crtcs| <= |C|
    ensures |r| == |crtcs|
    ensures forall i :: 0 <= i < |r| ==> r[i] == Hyp(C[i], crtcs[i])
  {
    if crtcs == [] then [] else [Hyp(C[0], crtcs[0])] + Place(C[1..], crtcs[1..])
  }

  /**
   * If some placement of the first min(|C|, |K|) connectors on CRTCs drawn
   * from K (each at most as often as offered) passes the test, and every
   * connector placed has an encoder, then the search does not fail
   * (it may return another working placement found earlier).
   */
  lemma {:induction false} SearchComplete(atomic: bool, test: seq<Hyp> -> bool, P: seq<Hyp>, C: seq<Connector>,
                                          K: seq<Crtc>, choice: seq<Crtc>)
    requires |choice| == Min(|C|, |K|)
    requires multiset(choice) <= multiset(K)
    requires forall i :: 0 <= i < |choice| ==> |C[i].encoders| > 0
    requires |P| + |choice| > 0
    requires test(P + Place(C, choice))
    ensures FindWorkingCombination(atomic, test, P, C, K) != []
    decreases |C|, 1
  {
    if |C| == 0 || |K| == 0 {
      assert choice == [];
      assert P + Place(C, choice) == P;
    } else {
      InductiveStep(atomic, test, P, C, K, choice);
    }
  }

  lemma PlaceSplit(P: seq<Hyp>, C: seq<Connector>, choice: seq<Crtc>)
    requires 0 < |choice| <= |C|
    ensures P + Place(C, choice) == (P + [Hyp(C[0], choice[0])]) + Place(C[1..], choice[1..])
  {
    var X := Place(C[1..], choice[1..]);
    assert Place(C, choice) == [Hyp(C[0], choice[0])] + X;
    SeqAssoc(P, [Hyp(C[0], choice[0])], X);
  }

  lemma RemainingOffer(A: seq<Crtc>, K: seq<Crtc>, choice: seq<Crtc>)
    requires multiset(A) == multiset(K)
    requires |choice| > 0 && multiset(choice) <= multiset(K)
    ensures choice[0] in A
    ensures |RemoveOne(A, choice[0])| == |K| - 1
    ensures multiset(choice[1..]) <= multiset(RemoveOne(A, choice[0]))
  {
    var c := choice[0];
    assert choice == [c] + choice[1..];
    assert c in multiset(K);
    assert c in A;
    RemoveOneMultiset(A, c);
  }

  lemma {:induction false} InductiveStep(atomic: bool, test: seq<Hyp> -> bool, P: seq<Hyp>, C: seq<Connector>,
                                         K: seq<Crtc>, choice: seq<Crtc>)
    requires |C| > 0 && |K| > 0
    requires |choice| == Min(|C|, |K|)
    requires multiset(choice) <= multiset(K)
    requires forall i :: 0 <= i < |choice| ==> |C[i].encoders| > 0
    requires test(P + Place(C, choice))
    ensures FindWorkingCombination(atomic, test, P, C, K) != []
    decreases |C|, 0
  {
    var c := choice[0];
    var A := Arrange(atomic, C[0], K);
    RemainingOffer(A, K, choice);
    var j :| 0 <= j < |A| && A[j] == c;
    PlaceSplit(P, C, choice);
    SearchComplete(atomic, test, P + [Hyp(C[0], c)], C[1..], RemoveOne(A, c), choice[1..]);
    assert Branch(atomic, test, P, C[0], C[1..], A, A[j]) != [];
    FirstSuccessfulBranch(atomic, test, P, C[0], C[1..], A, 0);
    EncodersRetrySameCrtcs(atomic, test, P, C[0], C[1..], A, C[0].encoders);
  }
}
