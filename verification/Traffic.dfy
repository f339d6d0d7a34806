/** Per-user byte counters, as both the node agent and the panel keep them. */
module Traffic {

  const MAX_COUNTER: int := 0x7FFF_FFFF_FFFF_FFFF

  datatype Counters = Counters(tx: nat, rx: nat)

  type UserTraffic = map<string, Counters>

  datatype Direction = Tx | Rx

  /** One accounted quantity: a user's bytes in one direction. */
  datatype Account = Account(user: string, direction: Direction)

  function Amount(traffic: UserTraffic, who: Account): nat {
    if who.user !in traffic then 0
    else if who.direction.Tx? then traffic[who.user].tx
    else traffic[who.user].rx
  }

  /** validate_counters / _validate_traffic without a user limit. */
  predicate ValidTraffic(traffic: UserTraffic) {
    forall name :: name in traffic ==>
      1 <= |name| <= 64 && traffic[name].tx <= MAX_COUNTER && traffic[name].rx <= MAX_COUNTER
  }

  /** No user of the baseline has disappeared and no counter has gone back. */
  predicate Continues(baseline: UserTraffic, traffic: UserTraffic) {
    forall name :: name in baseline ==>
      && name in traffic
      && baseline[name].tx <= traffic[name].tx
      && baseline[name].rx <= traffic[name].rx
  }

  function Old(baseline: UserTraffic, name: string): Counters {
    if name in baseline then baseline[name] else Counters(0, 0)
  }

  /** What one user gained since the baseline. */
  function Gain(baseline: UserTraffic, traffic: UserTraffic, name: string): Counters
    requires name in traffic && Continues(baseline, traffic)
  {
    Counters(traffic[name].tx - Old(baseline, name).tx, traffic[name].rx - Old(baseline, name).rx)
  }

  /** The non-zero differences: the traffic a sample adds to its baseline. */
  function Delta(baseline: UserTraffic, traffic: UserTraffic): UserTraffic
    requires Continues(baseline, traffic)
  {
    map name | name in traffic && Gain(baseline, traffic, name) != Counters(0, 0)
      :: Gain(baseline, traffic, name)
  }

  lemma DeltaNames(baseline: UserTraffic, traffic: UserTraffic)
    requires Continues(baseline, traffic)
    ensures Delta(baseline, traffic).Keys <= traffic.Keys
    ensures forall name :: name in traffic ==>
              (name in Delta(baseline, traffic) <==> Gain(baseline, traffic, name) != Counters(0, 0))
    ensures forall name :: name in Delta(baseline, traffic) ==>
              Delta(baseline, traffic)[name] == Gain(baseline, traffic, name)
  {
  }

  lemma DeltaAmount(baseline: UserTraffic, traffic: UserTraffic, who: Account)
    requires Continues(baseline, traffic)
    ensures Amount(baseline, who) + Amount(Delta(baseline, traffic), who) == Amount(traffic, who)
  {
    if who.user in traffic {
      var gain := Gain(baseline, traffic, who.user);
    }
  }

  lemma DeltaValid(baseline: UserTraffic, traffic: UserTraffic)
    requires Continues(baseline, traffic) && ValidTraffic(traffic)
    ensures ValidTraffic(Delta(baseline, traffic))
  {
  }

  function Sum(a: UserTraffic, b: UserTraffic): UserTraffic {
    map name | name in a.Keys + b.Keys ::
      Counters(Old(a, name).tx + Old(b, name).tx, Old(a, name).rx + Old(b, name).rx)
  }

  lemma SumAmount(a: UserTraffic, b: UserTraffic, who: Account)
    ensures Amount(Sum(a, b), who) == Amount(a, who) + Amount(b, who)
  {
  }
}
