/**
 * The two rotating load balancers: packages/core/src/discovery/round-robin-load-balancer.ts and
 * weighted-round-robin-load-balancer.ts.
 */
module LoadBalancers {
  import opened Common
  import opened Errors
  import opened Arithmetic

  datatype Endpoint = Endpoint(host: string, port: int, weight: Option<JsNumber>)

  /** The cursor of a service that has not been selected for yet is 0. */
  function CursorOf(cursors: map<string, nat>, serviceName: string): nat {
    if serviceName in cursors then cursors[serviceName] else 0
  }

  function NoEndpoint(serviceName: string): Error {
    RpcError("NO_ENDPOINT_AVAILABLE", "No endpoints available for service: " + serviceName)
  }

  class RoundRobinLoadBalancer {
    var cursors: map<string, nat>

    constructor ()
      ensures cursors == map[]
    {
      cursors := map[];
    }

    method Select(serviceName: string, endpoints: seq<Endpoint>) returns (r: Result<Endpoint, Error>)
      modifies this
      ensures |endpoints| == 0 ==> r == Failure(NoEndpoint(serviceName)) && unchanged(this)
      ensures |endpoints| > 0 ==>
                && r == Success(endpoints[CursorOf(old(cursors), serviceName) % |endpoints|])
                && cursors == old(cursors)[serviceName := CursorOf(old(cursors), serviceName) + 1]
    {
      if |endpoints| == 0 {
        return Failure(NoEndpoint(serviceName));
      }
      var cursor := if serviceName in cursors then cursors[serviceName] else 0;
      var endpoint := endpoints[cursor % |endpoints|];
      cursors := cursors[serviceName := cursor + 1];
      r := Success(endpoint);
    }
  }

  // ----- weights -----

  function GetWeight(endpoint: Endpoint): (w: nat)
    ensures w >= 1
    ensures endpoint.weight.None? || endpoint.weight.value.NonFinite? ==> w == 1
    ensures endpoint.weight.Some? && endpoint.weight.value.Finite? ==>
              if endpoint.weight.value.value < 1.0 then w == 1
              else w as real <= endpoint.weight.value.value < w as real + 1.0
  {
    match endpoint.weight
    case None => 1
    case Some(NonFinite) => 1
    case Some(Finite(value)) => Max(1, value.Floor)
  }

  /** The list positions in the expanded list: each position as many times as its endpoint weighs. */
  function Expanded(endpoints: seq<Endpoint>): (positions: seq<nat>)
    ensures |positions| >= |endpoints|
    ensures forall k | 0 <= k < |positions| :: positions[k] < |endpoints|
  {
    if endpoints == [] then [] else
    var last := |endpoints| - 1;
    Expanded(endpoints[..last]) + seq(GetWeight(endpoints[last]), _ => last)
  }

  function At(endpoints: seq<Endpoint>, positions: seq<nat>): seq<Endpoint>
    requires forall k | 0 <= k < |positions| :: positions[k] < |endpoints|
  {
    seq(|positions|, k requires 0 <= k < |positions| => endpoints[positions[k]])
  }

  /** The entry that each cursor value selects. */
  function Rotation(list: seq<nat>): (choice: nat -> nat)
    requires list != []
  {
    (cursor: nat) => list[cursor % |list|]
  }

  class WeightedRoundRobinLoadBalancer {
    var cursors: map<string, nat>

    constructor ()
      ensures cursors == map[]
    {
      cursors := map[];
    }

    method Select(serviceName: string, endpoints: seq<Endpoint>) returns (r: Result<Endpoint, Error>)
      modifies this
      ensures |endpoints| == 0 ==> r == Failure(NoEndpoint(serviceName)) && unchanged(this)
      ensures |endpoints| > 0 ==>
                && r == Success(endpoints[Rotation(Expanded(endpoints))(CursorOf(old(cursors), serviceName))])
                && cursors == old(cursors)[serviceName := CursorOf(old(cursors), serviceName) + 1]
    {
      if |endpoints| == 0 {
        return Failure(NoEndpoint(serviceName));
      }
      var weightedEndpoints := ExpandWeightedEndpoints(endpoints);
      var cursor := if serviceName in cursors then cursors[serviceName] else 0;
      var endpoint := weightedEndpoints[cursor % |weightedEndpoints|];
      cursors := cursors[serviceName := cursor + 1];
      r := Success(endpoint);
    }

    method ExpandWeightedEndpoints(endpoints: seq<Endpoint>) returns (weightedEndpoints: seq<Endpoint>)
      ensures weightedEndpoints == At(endpoints, Expanded(endpoints))
    {
      weightedEndpoints := [];
      for n := 0 to |endpoints|
        invariant weightedEndpoints == At(endpoints[..n], Expanded(endpoints[..n]))
      {
        var endpoint := endpoints[n];
        var weight := GetWeight(endpoint);
        ghost var before := weightedEndpoints;
        for i := 0 to weight
          invariant weightedEndpoints == before + seq(i, _ => endpoint)
        {
          weightedEndpoints := weightedEndpoints + [endpoint];
        }
        assert endpoints[..n + 1][..n] == endpoints[..n] && endpoints[..n + 1][n] == endpoint;
        assert Expanded(endpoints[..n + 1]) == Expanded(endpoints[..n]) + seq(weight, _ => n);
      }
      assert endpoints[..|endpoints|] == endpoints;
    }
  }

  // ----- rotation -----

  /** How often `x` occurs in `s`. */
  function Occurrences(s: seq<nat>, x: nat): nat {
    if s == [] then 0 else (if s[0] == x then 1 else 0) + Occurrences(s[1..], x)
  }

  lemma {:induction false} OccurrencesAppend(a: seq<nat>, b: seq<nat>, x: nat)
    ensures Occurrences(a + b, x) == Occurrences(a, x) + Occurrences(b, x)
    decreases |a|
  {
    if a == [] {
      assert a + b == b;
    } else {
      assert (a + b)[1..] == a[1..] + b;
      OccurrencesAppend(a[1..], b, x);
    }
  }

  /** `count` consecutive choices from `cursor` on. */
  function Window(choice: nat -> nat, cursor: nat, count: nat): (w: seq<nat>)
    ensures |w| == count
    decreases count
  {
    if count == 0 then [] else [choice(cursor)] + Window(choice, cursor + 1, count - 1)
  }

  lemma {:induction false} WindowLast(choice: nat -> nat, cursor: nat, count: nat)
    ensures Window(choice, cursor, count + 1) == Window(choice, cursor, count) + [choice(cursor + count)]
    decreases count
  {
    if count > 0 {
      WindowLast(choice, cursor + 1, count - 1);
    }
  }

  lemma {:induction false} WindowSlice(choice: nat -> nat, cursor: nat, count: nat, from: nat, n: nat)
    requires from + n <= count
    ensures Window(choice, cursor, count)[from..from + n] == Window(choice, cursor + from, n)
    decreases count
  {
    var w := Window(choice, cursor, count);
    if from > 0 {
      WindowSlice(choice, cursor + 1, count - 1, from - 1, n);
      assert w[from..from + n] == w[1..][from - 1..from - 1 + n];
    } else if n > 0 {
      WindowSlice(choice, cursor + 1, count - 1, 0, n - 1);
      assert w[0..n] == [w[0]] + w[1..][0..n - 1];
    }
  }

  lemma {:induction false} FirstTurn(choice: nat -> nat, list: seq<nat>, count: nat)
    requires count <= |list| && forall k | 0 <= k < |list| :: choice(k) == list[k]
    ensures Window(choice, 0, count) == list[..count]
    decreases count
  {
    if count > 0 {
      WindowLast(choice, 0, count - 1);
      FirstTurn(choice, list, count - 1);
    }
  }

  /** Choice number k comes again n choices later. */
  predicate Recurs(choice: nat -> nat, k: nat, n: nat) {
    choice(k + n) == choice(k)
  }

  /** A whole turn, from wherever it starts, holds every entry exactly as often as the list does. */
  lemma {:induction false} WholeTurn(choice: nat -> nat, list: seq<nat>, cursor: nat, x: nat)
    requires list != []
    requires forall k | 0 <= k < |list| :: choice(k) == list[k]
    requires forall k: nat :: Recurs(choice, k, |list|)
    ensures Occurrences(Window(choice, cursor, |list|), x) == Occurrences(list, x)
    decreases cursor
  {
    if cursor == 0 {
      FirstTurn(choice, list, |list|);
      assert list[..|list|] == list;
    } else {
      WholeTurn(choice, list, cursor - 1, x);
      assert Recurs(choice, cursor - 1, |list|);
      TurnAgain(choice, cursor - 1, |list| - 1, x);
    }
  }

  /** Moving a turn on by one drops an entry in front and gains it again at the end. */
  lemma TurnAgain(choice: nat -> nat, cursor: nat, n: nat, x: nat)
    requires Recurs(choice, cursor, n + 1)
    ensures Occurrences(Window(choice, cursor + 1, n + 1), x) == Occurrences(Window(choice, cursor, n + 1), x)
  {
    var middle, entry := Window(choice, cursor + 1, n), choice(cursor);
    WindowLast(choice, cursor + 1, n);
    assert Window(choice, cursor + 1, n + 1) == middle + [entry];
    assert Window(choice, cursor, n + 1) == [entry] + middle;
    OccurrencesAppend(middle, [entry], x);
    OccurrencesAppend([entry], middle, x);
  }

  lemma RotationTurns(list: seq<nat>)
    requires list != []
    ensures forall k | 0 <= k < |list| :: Rotation(list)(k) == list[k]
    ensures forall k: nat :: Recurs(Rotation(list), k, |list|)
  {
    forall k: nat
      ensures Recurs(Rotation(list), k, |list|)
    {
      SameRemainder(k, |list|);
    }
    forall k | 0 <= k < |list|
      ensures Rotation(list)(k) == list[k]
    {
      QuotientIs(k, |list|, 0);
    }
  }

  lemma SameRemainder(k: nat, n: nat)
    requires n > 0
    ensures (k + n) % n == k % n
  {
    QuotientShift(k, 1, n);
    assert k + 1 * n == k + n;
    assert (k + n) % n == k + n - ((k + n) / n) * n;
    Distribute(k / n, 1, n);
  }

  lemma {:induction false} ExpandedWeights(endpoints: seq<Endpoint>, i: nat)
    requires i < |endpoints|
    ensures Occurrences(Expanded(endpoints), i) == GetWeight(endpoints[i])
    decreases |endpoints|
  {
    var last := |endpoints| - 1;
    var before, weight := Expanded(endpoints[..last]), GetWeight(endpoints[last]);
    OccurrencesAppend(before, seq(weight, _ => last), i);
    OccurrencesOfCopies(last, weight, i);
    if i < last {
      ExpandedWeights(endpoints[..last], i);
    } else {
      NoOccurrence(before, last);
    }
  }

  lemma {:induction false} OccurrencesOfCopies(x: nat, count: nat, y: nat)
    ensures Occurrences(seq(count, _ => x), y) == if y == x then count else 0
    decreases count
  {
    if count > 0 {
      OccurrencesOfCopies(x, count - 1, y);
      assert seq(count, _ => x)[1..] == seq(count - 1, _ => x);
    }
  }

  lemma {:induction false} NoOccurrence(s: seq<nat>, x: nat)
    requires forall k | 0 <= k < |s| :: s[k] < x
    ensures Occurrences(s, x) == 0
    decreases |s|
  {
    if s != [] {
      NoOccurrence(s[1..], x);
    }
  }

  // ----- runs of selections for many services -----

  /** One selection: for which service, and from which list. */
  datatype Pick = Pick(serviceName: string, endpoints: seq<Endpoint>)

  function AfterPick(cursors: map<string, nat>, pick: Pick): map<string, nat> {
    if pick.endpoints == [] then cursors
    else cursors[pick.serviceName := CursorOf(cursors, pick.serviceName) + 1]
  }

  /** The positions chosen for one service in a run of selections for any services. */
  function ChosenFor(cursors: map<string, nat>, picks: seq<Pick>, serviceName: string): seq<nat>
    decreases |picks|
  {
    if picks == [] then [] else
    var later := ChosenFor(AfterPick(cursors, picks[0]), picks[1..], serviceName);
    if picks[0].serviceName != serviceName || picks[0].endpoints == [] then later
    else [Rotation(Expanded(picks[0].endpoints))(CursorOf(cursors, serviceName))] + later
  }

  predicate AlwaysFrom(picks: seq<Pick>, serviceName: string, endpoints: seq<Endpoint>) {
    forall pick <- picks :: pick.serviceName == serviceName ==> pick.endpoints == endpoints
  }

  lemma WindowFirst(choice: nat -> nat, cursor: nat, later: seq<nat>)
    requires later == Window(choice, cursor + 1, |later|)
    ensures [choice(cursor)] + later == Window(choice, cursor, |later| + 1)
  {
  }

  /** One more selection in front: the service's own one comes first, any other leaves its choices alone. */
  lemma OneMorePick(cursors: map<string, nat>, picks: seq<Pick>, serviceName: string, endpoints: seq<Endpoint>,
                    choice: nat -> nat)
    requires picks != [] && endpoints != [] && choice == Rotation(Expanded(endpoints))
    requires picks[0].serviceName == serviceName ==> picks[0].endpoints == endpoints
    ensures var cursors1 := AfterPick(cursors, picks[0]);
            var cursor, own := CursorOf(cursors, serviceName), picks[0].serviceName == serviceName;
            && CursorOf(cursors1, serviceName) == (if own then cursor + 1 else cursor)
            && ChosenFor(cursors, picks, serviceName)
               == (if own then [choice(cursor)] else []) + ChosenFor(cursors1, picks[1..], serviceName)
  {
  }

  /** Selections for other services change nothing: a service's choices are one uninterrupted rotation. */
  lemma {:induction false} ChoicesAreOneRotation(cursors: map<string, nat>, picks: seq<Pick>, serviceName: string,
                                                 endpoints: seq<Endpoint>, choice: nat -> nat)
    requires endpoints != [] && choice == Rotation(Expanded(endpoints)) && AlwaysFrom(picks, serviceName, endpoints)
    ensures var chosen := ChosenFor(cursors, picks, serviceName);
            chosen == Window(choice, CursorOf(cursors, serviceName), |chosen|)
    decreases |picks|
  {
    if picks != [] {
      assert picks[0] in picks && forall pick <- picks[1..] :: pick in picks;
      ChoicesAreOneRotation(AfterPick(cursors, picks[0]), picks[1..], serviceName, endpoints, choice);
      OneMorePick(cursors, picks, serviceName, endpoints, choice);
      if picks[0].serviceName == serviceName {
        WindowFirst(choice, CursorOf(cursors, serviceName),
                    ChosenFor(AfterPick(cursors, picks[0]), picks[1..], serviceName));
      }
    }
  }

  lemma FairTurn(endpoints: seq<Endpoint>, cursor: nat, i: nat)
    requires i < |endpoints|
    ensures Occurrences(Window(Rotation(Expanded(endpoints)), cursor, |Expanded(endpoints)|), i) == GetWeight(endpoints[i])
  {
    RotationTurns(Expanded(endpoints));
    WholeTurn(Rotation(Expanded(endpoints)), Expanded(endpoints), cursor, i);
    ExpandedWeights(endpoints, i);
  }

  lemma FairSlice(chosen: seq<nat>, endpoints: seq<Endpoint>, cursor: nat, from: nat, i: nat)
    requires i < |endpoints| && from + TotalWeight(endpoints) <= |chosen|
    requires chosen == Window(Rotation(Expanded(endpoints)), cursor, |chosen|)
    ensures Occurrences(chosen[from..from + TotalWeight(endpoints)], i) == GetWeight(endpoints[i])
  {
    ExpandedLength(endpoints);
    WindowSlice(Rotation(Expanded(endpoints)), cursor, |chosen|, from, |Expanded(endpoints)|);
    FairTurn(endpoints, cursor + from, i);
  }

  /**
   * Weighted fairness: among any W consecutive selections for a service, where W is the sum of the weights, position i
   * is chosen exactly as often as its endpoint weighs, whatever is selected for other services in between.
   */
  lemma WeightedFairness(cursors: map<string, nat>, picks: seq<Pick>, serviceName: string, endpoints: seq<Endpoint>,
                         from: nat, i: nat)
    requires i < |endpoints| && AlwaysFrom(picks, serviceName, endpoints)
    requires from + TotalWeight(endpoints) <= |ChosenFor(cursors, picks, serviceName)|
    ensures var chosen := ChosenFor(cursors, picks, serviceName);
            Occurrences(chosen[from..from + TotalWeight(endpoints)], i) == GetWeight(endpoints[i])
  {
    var chosen := ChosenFor(cursors, picks, serviceName);
    ChoicesAreOneRotation(cursors, picks, serviceName, endpoints, Rotation(Expanded(endpoints)));
    FairSlice(chosen, endpoints, CursorOf(cursors, serviceName), from, i);
  }

  function TotalWeight(endpoints: seq<Endpoint>): nat {
    if endpoints == [] then 0
    else TotalWeight(endpoints[..|endpoints| - 1]) + GetWeight(endpoints[|endpoints| - 1])
  }

  /** The window length of the fairness law is the sum of the weights. */
  lemma {:induction false} ExpandedLength(endpoints: seq<Endpoint>)
    ensures |Expanded(endpoints)| == TotalWeight(endpoints)
    decreases |endpoints|
  {
    if endpoints != [] {
      ExpandedLength(endpoints[..|endpoints| - 1]);
    }
  }

  /** The expanded list keeps the order of the endpoints, the copies of each side by side. */
  lemma {:induction false} ExpandedInOrder(endpoints: seq<Endpoint>)
    ensures forall j, k | 0 <= j <= k < |Expanded(endpoints)| :: Expanded(endpoints)[j] <= Expanded(endpoints)[k]
    decreases |endpoints|
  {
    if endpoints != [] {
      ExpandedInOrder(endpoints[..|endpoints| - 1]);
    }
  }
}
