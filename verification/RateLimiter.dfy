/** The rate limiter (resource-tuner/core/RateLimiter): a health score for each client
    thread, lowered by requests in quick succession and raised by patient ones. */
module RateLimiting {
  import opened RequestManagement

  datatype Rates = Rates(delta: int, penalty: real, reward: real)

  const FULL_HEALTH := 100.0

  /** How one request at time `now` moves the score of an unblocked client. */
  predicate Penalised(r: Rates, data: ClientTidData, now: int) {
    data.mHealth > 0.0 && data.mLastRequestTimestamp != 0 && now - data.mLastRequestTimestamp < r.delta
  }

  predicate Rewarded(r: Rates, data: ClientTidData, now: int) {
    data.mHealth > 0.0 && data.mLastRequestTimestamp != 0 && now - data.mLastRequestTimestamp >= r.delta
  }

  function NewHealth(r: Rates, data: ClientTidData, now: int): real {
    if Penalised(r, data, now) then data.mHealth - r.penalty
    else if !Rewarded(r, data, now) then data.mHealth
    else if data.mHealth + r.reward < FULL_HEALTH then data.mHealth + r.reward
    else FULL_HEALTH
  }

  /** A request is accepted when the score it leaves is positive; only then is it timed. */
  function Assess(r: Rates, data: ClientTidData, now: int): ClientTidData {
    var health := NewHealth(r, data, now);
    if health <= 0.0 then data.(mHealth := health)
    else data.(mHealth := health, mLastRequestTimestamp := now)
  }

  predicate Blocked(data: ClientTidData) {
    data.mHealth <= 0.0
  }

  function AssessAll(r: Rates, data: ClientTidData, times: seq<int>): ClientTidData {
    if times == [] then data else Assess(r, AssessAll(r, data, times[..|times| - 1]), times[|times| - 1])
  }

  function Penalties(r: Rates, data: ClientTidData, times: seq<int>): nat {
    if times == [] then 0
    else
      var before := times[..|times| - 1];
      Penalties(r, data, before) + if Penalised(r, AssessAll(r, data, before), times[|times| - 1]) then 1 else 0
  }

  function Rewards(r: Rates, data: ClientTidData, times: seq<int>): nat {
    if times == [] then 0
    else
      var before := times[..|times| - 1];
      Rewards(r, data, before) + if Rewarded(r, AssessAll(r, data, before), times[|times| - 1]) then 1 else 0
  }

  /** A client as the repository creates it. */
  function Newcomer(): ClientTidData {
    ClientTidData({}, 0, FULL_HEALTH)
  }

  predicate Sane(r: Rates) {
    r.penalty > 0.0 && r.reward > 0.0
  }

  /** One request of each kind of client: a blocked one changes nothing; the first is only timed;
      a quick one costs the penalty; a patient one raises a score below 100 by the reward, or up
      to 100. A request that is refused is not timed. */
  lemma RequestsMoveTheScore(r: Rates, data: ClientTidData, now: int)
    requires Sane(r) && data.mHealth <= 100.0
    ensures Newcomer() == ClientTidData({}, 0, 100.0)
    ensures var after, last, health := Assess(r, data, now), data.mLastRequestTimestamp, data.mHealth;
      && after.mClientHandles == data.mClientHandles
      && (health <= 0.0 ==> after == data)
      && (health > 0.0 && last == 0 ==> after.mHealth == health && after.mLastRequestTimestamp == now)
      && (health > 0.0 && last != 0 && now - last < r.delta ==>
            after.mHealth == health - r.penalty && after.mLastRequestTimestamp == if health > r.penalty then now else last)
      && (health > 0.0 && last != 0 && now - last >= r.delta ==>
            after.mLastRequestTimestamp == now && after.mHealth <= 100.0
            && (after.mHealth == health + r.reward || (after.mHealth == 100.0 && health + r.reward > 100.0))
            && (health < 100.0 ==> health < after.mHealth))
  {
  }

  function Times(x: real, n: nat): real {
    if n == 0 then 0.0 else Times(x, n - 1) + x
  }

  lemma {:induction false} TimesIsProduct(x: real, n: nat)
    ensures Times(x, n) == x * n as real
  {
    if n > 0 {
      TimesIsProduct(x, n - 1);
      assert x * n as real == x * (n - 1) as real + x;
    }
  }

  /** The full score with `b` penalties taken off and `g` rewards added. */
  function Balance(r: Rates, b: nat, g: nat): real {
    FULL_HEALTH + Times(r.reward, g) - Times(r.penalty, b)
  }

  /** One request moves the score by at most what it moves the balance. */
  lemma AssessIsBounded(r: Rates, data: ClientTidData, now: int, balance: real)
    requires Sane(r) && data.mHealth <= FULL_HEALTH && data.mHealth <= balance
    ensures var after, charged := Assess(r, data, now).mHealth, if Penalised(r, data, now) then balance - r.penalty else balance;
      after <= FULL_HEALTH && after <= if Rewarded(r, data, now) then charged + r.reward else charged
  {
  }

  lemma {:induction false} HealthIsBalanced(r: Rates, times: seq<int>)
    requires Sane(r)
    ensures var data := AssessAll(r, Newcomer(), times);
      && data.mHealth <= FULL_HEALTH
      && data.mHealth <= Balance(r, Penalties(r, Newcomer(), times), Rewards(r, Newcomer(), times))
  {
    if times != [] {
      var before, now := times[..|times| - 1], times[|times| - 1];
      HealthIsBalanced(r, before);
      var b, g := Penalties(r, Newcomer(), before), Rewards(r, Newcomer(), before);
      AssessIsBounded(r, AssessAll(r, Newcomer(), before), now, Balance(r, b, g));
    }
  }

  /** `b` penalties cost less than the full score and `g` rewards bring. */
  predicate PaidFor(r: Rates, b: nat, g: nat) {
    r.penalty * b as real < FULL_HEALTH + r.reward * g as real
  }

  lemma PositiveBalanceIsPaid(r: Rates, b: nat, g: nat)
    requires 0.0 < Balance(r, b, g)
    ensures PaidFor(r, b, g)
  {
    TimesIsProduct(r.penalty, b);
    TimesIsProduct(r.reward, g);
  }

  /** Over any run the score stays within 100, and an unblocked client's penalties are paid
      for by the full score and its rewards. */
  lemma HealthIsBounded(r: Rates, times: seq<int>)
    requires Sane(r)
    ensures var data := AssessAll(r, Newcomer(), times);
      && data.mHealth <= FULL_HEALTH
      && (!Blocked(data) ==> PaidFor(r, Penalties(r, Newcomer(), times), Rewards(r, Newcomer(), times)))
  {
    HealthIsBalanced(r, times);
    if !Blocked(AssessAll(r, Newcomer(), times)) {
      PositiveBalanceIsPaid(r, Penalties(r, Newcomer(), times), Rewards(r, Newcomer(), times));
    }
  }

  /** Once refused, refused for ever: nothing a blocked client sends changes its record. */
  lemma {:induction false} BlockedForEver(r: Rates, data: ClientTidData, times: seq<int>)
    requires Blocked(data)
    ensures AssessAll(r, data, times) == data
  {
    if times != [] {
      BlockedForEver(r, data, times[..|times| - 1]);
    }
  }

  predicate Patient(r: Rates, times: seq<int>) {
    forall i :: 0 <= i < |times| - 1 ==> times[i + 1] - times[i] >= r.delta
  }

  predicate Rapid(r: Rates, times: seq<int>) {
    forall i :: 0 <= i < |times| - 1 ==> times[i + 1] - times[i] < r.delta
  }

  predicate Positive(times: seq<int>) {
    forall i :: 0 <= i < |times| ==> 0 < times[i]
  }

  /** A client that always waits is never refused. */
  lemma {:induction false} PatientIsNeverRefused(r: Rates, times: seq<int>)
    requires Sane(r) && Patient(r, times) && Positive(times)
    ensures AssessAll(r, Newcomer(), times) == Newcomer().(mLastRequestTimestamp := if times == [] then 0 else times[|times| - 1])
  {
    if times != [] {
      PatientIsNeverRefused(r, times[..|times| - 1]);
    }
  }

  lemma {:induction false} RapidSpends(r: Rates, times: seq<int>)
    requires Sane(r) && Rapid(r, times) && Positive(times) && times != []
    ensures var data := AssessAll(r, Newcomer(), times);
      var spent := Times(r.penalty, |times| - 1);
      && (Blocked(data) <==> spent >= FULL_HEALTH)
      && (!Blocked(data) ==> data.mHealth == FULL_HEALTH - spent && data.mLastRequestTimestamp == times[|times| - 1])
  {
    if |times| > 1 {
      RapidSpends(r, times[..|times| - 1]);
    } else {
      assert times[..0] == [];
    }
  }

  /** A client that never waits is refused exactly from the request whose penalties sum up
      to the full score. */
  lemma RapidIsRefusedIff(r: Rates, times: seq<int>)
    requires Sane(r) && Rapid(r, times) && Positive(times) && times != []
    ensures Blocked(AssessAll(r, Newcomer(), times)) <==> r.penalty * (|times| - 1) as real >= FULL_HEALTH
  {
    RapidSpends(r, times);
    TimesIsProduct(r.penalty, |times| - 1);
  }

  class RateLimiter {
    const mRates: Rates
    const clients: ClientDataManager

    constructor (rates: Rates, clients: ClientDataManager)
      ensures mRates == rates && this.clients == clients
    {
      mRates, this.clients := rates, clients;
    }

    /** `currentMillis` is the clock. A thread that is not tracked is refused. */
    method ShouldBeProcessed(clientTID: int, currentMillis: int) returns (accepted: bool)
      modifies clients
      ensures clientTID !in old(clients.mClientTidRepo) ==> !accepted && clients.mClientTidRepo == old(clients.mClientTidRepo)
      ensures clientTID in old(clients.mClientTidRepo) ==>
        var data := Assess(mRates, old(clients.mClientTidRepo)[clientTID], currentMillis);
        clients.mClientTidRepo == old(clients.mClientTidRepo)[clientTID := data] && (accepted <==> !Blocked(data))
    {
      var health := clients.GetHealthByClientID(clientTID);
      if health <= 0.0 {
        return false;
      }
      var last := clients.GetLastRequestTimestampByClientID(clientTID);
      if last != 0 {
        var requestDelta := currentMillis - last;
        if requestDelta < mRates.delta {
          health := health - mRates.penalty;
        } else {
          health := if health + mRates.reward < FULL_HEALTH then health + mRates.reward else FULL_HEALTH;
        }
      }
      clients.UpdateHealthByClientID(clientTID, health);
      if health <= 0.0 {
        return false;
      }
      clients.UpdateLastRequestTimestampByClientID(clientTID, currentMillis);
      return true;
    }
  }
}
