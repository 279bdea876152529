/**
 * E-mail verification codes of the account service: issuing under an hourly
 * window and a cooldown, dropping an undelivered code, and redeeming.
 */
module VerificationCodes {
  import opened Text
  import SlidingWindow

  const HOUR: int := 3600 * SlidingWindow.SECOND

  /** hashVerificationCode: the keyed digest of a code under the salt of one issue. */
  type Hash = (nat, string) -> string

  /** A pending code; the serial number stands for the identity of its record and its salt. */
  datatype Pending = Pending(serial: nat, digest: string, issuedAt: int, expiresAt: int, attempts: nat)

  datatype Limits = Limits(hourly: nat, cooldown: int, ttl: int, attempts: nat)

  datatype Codes = Codes(pending: map<string, Pending>, sends: map<string, seq<int>>, next: nat)

  datatype SendResult = Sent(serial: nat) | HourlyLimit | CoolingDown
  datatype RedeemResult = Redeemed(serial: nat) | NoCode | Expired | Wrong(guessed: nat, last: bool)

  predicate Blocked(l: Limits, c: Codes, address: string, now: int) {
    address in c.pending && l.cooldown - (now - c.pending[address].issuedAt) > 0
  }

  function BeginSend(h: Hash, l: Limits, c: Codes, address: string, code: string, now: int)
    : (r: (SendResult, Codes))
  {
    var request := SlidingWindow.Request(now, Blocked(l, c, address, now));
    var (outcome, kept) := SlidingWindow.Decide(SlidingWindow.Kept(c.sends, address), l.hourly, HOUR, request);
    var sends := c.sends[address := kept];
    match outcome
    case LimitReached => (HourlyLimit, c.(sends := sends))
    case Vetoed => (CoolingDown, c.(sends := sends))
    case Admitted =>
      (Sent(c.next),
       Codes(c.pending[address := Pending(c.next, h(c.next, code), now, now + l.ttl, 0)], sends, c.next + 1))
  }

  /** Only the very record that was issued is dropped, never a newer one. */
  function DropPending(c: Codes, address: string, serial: nat): (r: Codes) {
    if address in c.pending && c.pending[address].serial == serial then c.(pending := c.pending - {address}) else c
  }

  function ConsumeCode(h: Hash, l: Limits, c: Codes, address: string, guess: string, now: int)
    : (r: (RedeemResult, Codes))
  {
    if address !in c.pending then (NoCode, c)
    else
      var p := c.pending[address];
      if now >= p.expiresAt then (Expired, c.(pending := c.pending - {address}))
      else if h(p.serial, guess) != p.digest then
        if p.attempts + 1 >= l.attempts then (Wrong(p.serial, true), c.(pending := c.pending - {address}))
        else (Wrong(p.serial, false), c.(pending := c.pending[address := p.(attempts := p.attempts + 1)]))
      else (Redeemed(p.serial), c.(pending := c.pending - {address}))
  }

  // ----- every run -----

  datatype Step =
    | Send(address: string, code: string, now: int)
    | Drop(address: string, serial: nat)
    | Redeem(address: string, guess: string, now: int)

  /** The table together with the history of redemptions and of wrong guesses. */
  datatype Trace = Trace(codes: Codes, redeemed: seq<nat>, wrong: seq<nat>)

  function Apply(h: Hash, l: Limits, t: Trace, step: Step): (t': Trace) {
    match step
    case Send(address, code, now) => t.(codes := BeginSend(h, l, t.codes, address, code, now).1)
    case Drop(address, serial) => t.(codes := DropPending(t.codes, address, serial))
    case Redeem(address, guess, now) =>
      match ConsumeCode(h, l, t.codes, address, guess, now)
      case (Redeemed(serial), codes) => Trace(codes, t.redeemed + [serial], t.wrong)
      case (Wrong(serial, _), codes) => Trace(codes, t.redeemed, t.wrong + [serial])
      case (_, codes) => t.(codes := codes)
  }

  function Run(h: Hash, l: Limits, steps: seq<Step>): (t: Trace) {
    if steps == [] then Trace(Codes(map[], map[], 0), [], [])
    else Apply(h, l, Run(h, l, steps[..|steps| - 1]), steps[|steps| - 1])
  }

  /** How often a serial number occurs. */
  function Count(serials: seq<nat>, serial: nat): (n: nat) {
    multiset(serials)[serial]
  }

  /** Live codes are unredeemed and have as many wrong guesses as they count; no code exceeds its guesses. */
  ghost predicate Sound(l: Limits, t: Trace) {
    && (forall a :: a in t.codes.pending ==>
          var p := t.codes.pending[a];
          && p.serial < t.codes.next
          && p.serial !in t.redeemed
          && Count(t.wrong, p.serial) == p.attempts < l.attempts)
    && (forall a, b :: a in t.codes.pending && b in t.codes.pending && a != b ==>
          t.codes.pending[a].serial != t.codes.pending[b].serial)
    && (forall s :: s in t.redeemed || s in t.wrong ==> s < t.codes.next)
    && (forall s :: Count(t.redeemed, s) <= 1 && Count(t.wrong, s) <= l.attempts)
  }

  lemma SendKeepsSound(h: Hash, l: Limits, t: Trace, address: string, code: string, now: int)
    requires Sound(l, t) && l.attempts > 0
    ensures Sound(l, Apply(h, l, t, Send(address, code, now)))
  {
    assert t.codes.next !in t.wrong;
  }

  lemma CountAppend(serials: seq<nat>, last: nat, serial: nat)
    ensures Count(serials + [last], serial) == Count(serials, serial) + if serial == last then 1 else 0
  {
    assert multiset(serials + [last]) == multiset(serials) + multiset{last};
  }

  lemma RedeemedKeepsSound(l: Limits, t: Trace, address: string)
    requires Sound(l, t) && address in t.codes.pending
    ensures var p := t.codes.pending[address];
            Sound(l, Trace(t.codes.(pending := t.codes.pending - {address}), t.redeemed + [p.serial], t.wrong))
  {
    var serial := t.codes.pending[address].serial;
    forall s
      ensures Count(t.redeemed + [serial], s) <= 1
    {
      CountAppend(t.redeemed, serial, s);
    }
  }

  lemma WrongKeepsSound(l: Limits, t: Trace, address: string)
    requires Sound(l, t) && address in t.codes.pending
    ensures var p := t.codes.pending[address];
            var pending := if p.attempts + 1 >= l.attempts then t.codes.pending - {address}
                           else t.codes.pending[address := p.(attempts := p.attempts + 1)];
            Sound(l, Trace(t.codes.(pending := pending), t.redeemed, t.wrong + [p.serial]))
  {
    var serial := t.codes.pending[address].serial;
    forall s
      ensures Count(t.wrong + [serial], s) == Count(t.wrong, s) + if s == serial then 1 else 0
    {
      CountAppend(t.wrong, serial, s);
    }
  }

  lemma RemovalKeepsSound(l: Limits, t: Trace, address: string)
    requires Sound(l, t)
    ensures Sound(l, t.(codes := t.codes.(pending := t.codes.pending - {address})))
  {
  }

  lemma RedeemKeepsSound(h: Hash, l: Limits, t: Trace, address: string, guess: string, now: int)
    requires Sound(l, t)
    ensures Sound(l, Apply(h, l, t, Redeem(address, guess, now)))
  {
    var (result, codes) := ConsumeCode(h, l, t.codes, address, guess, now);
    if result.NoCode? {
      assert Apply(h, l, t, Redeem(address, guess, now)) == t;
    } else {
      var p := t.codes.pending[address];
      if result.Expired? {
        RemovalKeepsSound(l, t, address);
        assert Apply(h, l, t, Redeem(address, guess, now)) == t.(codes := codes);
      } else if result.Redeemed? {
        RedeemedKeepsSound(l, t, address);
        assert Apply(h, l, t, Redeem(address, guess, now)) == Trace(codes, t.redeemed + [p.serial], t.wrong);
      } else {
        WrongKeepsSound(l, t, address);
        assert Apply(h, l, t, Redeem(address, guess, now)) == Trace(codes, t.redeemed, t.wrong + [p.serial]);
      }
    }
  }

  lemma {:induction false} RunIsSound(h: Hash, l: Limits, steps: seq<Step>)
    requires l.attempts > 0
    ensures Sound(l, Run(h, l, steps))
  {
    if steps != [] {
      var front, last := steps[..|steps| - 1], steps[|steps| - 1];
      RunIsSound(h, l, front);
      match last
      case Send(address, code, now) => SendKeepsSound(h, l, Run(h, l, front), address, code, now);
      case Drop(address, serial) => RemovalKeepsSound(l, Run(h, l, front), address);
      case Redeem(address, guess, now) => RedeemKeepsSound(h, l, Run(h, l, front), address, guess, now);
    }
  }

  /** Over every run an issued code is redeemed at most once and guessed wrong at most the allowed times. */
  lemma CodesAreSingleUse(h: Hash, l: Limits, steps: seq<Step>, serial: nat)
    requires l.attempts > 0
    ensures Count(Run(h, l, steps).redeemed, serial) <= 1
    ensures Count(Run(h, l, steps).wrong, serial) <= l.attempts
  {
    RunIsSound(h, l, steps);
  }

  // ----- the hourly window of each address -----

  function ArrivalOf(l: Limits, c: Codes, step: Step): (arrival: SlidingWindow.Arrival)
    requires step.Send?
  {
    SlidingWindow.Arrival(step.address, SlidingWindow.Request(step.now, Blocked(l, c, step.address, step.now)))
  }

  /** The send requests of a run, as the hourly windows see them: held back by a pending code or not. */
  function Sends(h: Hash, l: Limits, steps: seq<Step>): (arrivals: seq<SlidingWindow.Arrival>) {
    if steps == [] then []
    else
      var front, last := steps[..|steps| - 1], steps[|steps| - 1];
      if last.Send? then Sends(h, l, front) + [ArrivalOf(l, Run(h, l, front).codes, last)] else Sends(h, l, front)
  }

  /** When codes were sent to an address. */
  function SentTimes(h: Hash, l: Limits, steps: seq<Step>, address: string): (times: seq<int>) {
    if steps == [] then []
    else
      var front, last := steps[..|steps| - 1], steps[|steps| - 1];
      if last.Send? && last.address == address
         && BeginSend(h, l, Run(h, l, front).codes, address, last.code, last.now).0.Sent?
      then SentTimes(h, l, front, address) + [last.now] else SentTimes(h, l, front, address)
  }

  /** The code table holds one hourly window for each address, and sends what these admit. */
  lemma {:induction false} SendsAreWindows(h: Hash, l: Limits, steps: seq<Step>, address: string)
    ensures Run(h, l, steps).codes.sends == SlidingWindow.Table(l.hourly, HOUR, Sends(h, l, steps))
    ensures SentTimes(h, l, steps, address) == SlidingWindow.Admissions(l.hourly, HOUR, Sends(h, l, steps), address)
  {
    if steps != [] {
      var front, last := steps[..|steps| - 1], steps[|steps| - 1];
      SendsAreWindows(h, l, front, address);
      if last.Send? {
        var codes := Run(h, l, front).codes;
        SendIsArrival(h, l, codes, last);
        SlidingWindow.ArrivalOneMore(l.hourly, HOUR, Sends(h, l, front), ArrivalOf(l, codes, last), address);
      } else {
        OtherStepsSendNothing(h, l, Run(h, l, front), last);
      }
    }
  }

  lemma SendIsArrival(h: Hash, l: Limits, c: Codes, step: Step)
    requires step.Send?
    ensures var (outcome, kept) := SlidingWindow.Decide(SlidingWindow.Kept(c.sends, step.address), l.hourly, HOUR,
                                                        ArrivalOf(l, c, step).request);
            var (result, c') := BeginSend(h, l, c, step.address, step.code, step.now);
            c'.sends == c.sends[step.address := kept] && (result.Sent? <==> outcome.Admitted?)
  {
  }

  lemma OtherStepsSendNothing(h: Hash, l: Limits, t: Trace, step: Step)
    requires !step.Send?
    ensures Apply(h, l, t, step).codes.sends == t.codes.sends
  {
  }

  predicate SendsOrdered(steps: seq<Step>) {
    forall i, j :: 0 <= i < j < |steps| && steps[i].Send? && steps[j].Send? ==> steps[i].now <= steps[j].now
  }

  /** Some send of the run reads this clock. */
  predicate SentAt(steps: seq<Step>, now: int) { exists i :: 0 <= i < |steps| && steps[i].Send? && steps[i].now == now }

  lemma {:induction false} SendsAreOrdered(h: Hash, l: Limits, steps: seq<Step>)
    requires SendsOrdered(steps)
    ensures SlidingWindow.ArrivalsOrdered(Sends(h, l, steps))
    ensures forall k :: 0 <= k < |Sends(h, l, steps)| ==> SentAt(steps, Sends(h, l, steps)[k].request.now)
  {
    if steps != [] {
      var front, last := steps[..|steps| - 1], steps[|steps| - 1];
      var earlier := Sends(h, l, front);
      SendsAreOrdered(h, l, front);
      forall k | 0 <= k < |earlier|
        ensures SentAt(steps, earlier[k].request.now)
        ensures last.Send? ==> earlier[k].request.now <= last.now
      {
        assert SentAt(front, earlier[k].request.now);
        var i :| 0 <= i < |front| && front[i].Send? && front[i].now == earlier[k].request.now;
        assert steps[i] == front[i];
      }
      assert last.Send? ==> SentAt(steps, last.now);
    }
  }

  /** Over every run no address is sent more codes within an hour than the hourly limit. */
  lemma HourlyLimitHolds(h: Hash, l: Limits, steps: seq<Step>, address: string, t: int)
    requires SendsOrdered(steps)
    ensures SlidingWindow.InWindow(SentTimes(h, l, steps, address), t, HOUR) <= l.hourly
  {
    SendsAreWindows(h, l, steps, address);
    SendsAreOrdered(h, l, steps);
    SlidingWindow.NoKeyExceedsLimit(l.hourly, HOUR, Sends(h, l, steps), address, t);
  }

  // ----- which guess redeems a code -----

  /** Step i sent the address a code under this serial number. */
  ghost predicate Issued(h: Hash, l: Limits, steps: seq<Step>, i: nat, address: string, serial: nat) {
    && i < |steps| && steps[i].Send? && steps[i].address == address
    && BeginSend(h, l, Run(h, l, steps[..i]).codes, address, steps[i].code, steps[i].now).0 == Sent(serial)
  }

  /** The pending record is that of the code sent in step i. */
  ghost predicate Sourced(h: Hash, l: Limits, steps: seq<Step>, i: nat, address: string, p: Pending) {
    && Issued(h, l, steps, i, address, p.serial)
    && p.digest == h(p.serial, steps[i].code) && p.issuedAt == steps[i].now && p.expiresAt == steps[i].now + l.ttl
  }

  /** Every code the table holds was sent to its address by some step. */
  ghost predicate AllSourced(h: Hash, l: Limits, steps: seq<Step>, pending: map<string, Pending>) {
    forall a :: a in pending ==> exists i: nat :: Sourced(h, l, steps, i, a, pending[a])
  }

  /** Every redeemed serial number was redeemed, in time, by a guess with the digest of the code sent under it. */
  ghost predicate Earned(h: Hash, l: Limits, steps: seq<Step>, serial: nat) {
    exists i: nat, j: nat ::
      && i < j < |steps| && steps[j].Redeem? && Issued(h, l, steps, i, steps[j].address, serial)
      && h(serial, steps[j].guess) == h(serial, steps[i].code) && steps[j].now < steps[i].now + l.ttl
  }

  lemma IssuedLater(h: Hash, l: Limits, steps: seq<Step>, last: Step, i: nat, address: string, serial: nat)
    requires Issued(h, l, steps, i, address, serial)
    ensures Issued(h, l, steps + [last], i, address, serial) && (steps + [last])[i] == steps[i]
  {
    assert (steps + [last])[..i] == steps[..i];
  }

  lemma EarnedLater(h: Hash, l: Limits, steps: seq<Step>, last: Step, serial: nat)
    requires Earned(h, l, steps, serial)
    ensures Earned(h, l, steps + [last], serial)
  {
    var i: nat, j: nat :| i < j < |steps| && steps[j].Redeem? && Issued(h, l, steps, i, steps[j].address, serial)
                && h(serial, steps[j].guess) == h(serial, steps[i].code) && steps[j].now < steps[i].now + l.ttl;
    IssuedLater(h, l, steps, last, i, steps[j].address, serial);
    assert (steps + [last])[j] == steps[j];
  }

  /** One step sends the address a code, or leaves it a record that changes at most its misses. */
  lemma StepPending(h: Hash, l: Limits, t: Trace, step: Step, a: string)
    requires a in Apply(h, l, t, step).codes.pending
    ensures var p' := Apply(h, l, t, step).codes.pending[a];
            || (a in t.codes.pending && p' == t.codes.pending[a].(attempts := p'.attempts))
            || (step.Send? && step.address == a
                && BeginSend(h, l, t.codes, a, step.code, step.now).0 == Sent(p'.serial)
                && p' == Pending(p'.serial, h(p'.serial, step.code), step.now, step.now + l.ttl, 0))
  {
  }

  lemma StepSourced(h: Hash, l: Limits, steps: seq<Step>, last: Step)
    requires AllSourced(h, l, steps, Run(h, l, steps).codes.pending)
    ensures AllSourced(h, l, steps + [last], Run(h, l, steps + [last]).codes.pending)
  {
    var all, t := steps + [last], Run(h, l, steps);
    var pending := Run(h, l, all).codes.pending;
    assert all[..|steps|] == steps;
    forall a | a in pending
      ensures exists i: nat :: Sourced(h, l, all, i, a, pending[a])
    {
      StepPending(h, l, t, last, a);
      if a in t.codes.pending && pending[a] == t.codes.pending[a].(attempts := pending[a].attempts) {
        var i: nat :| Sourced(h, l, steps, i, a, t.codes.pending[a]);
        IssuedLater(h, l, steps, last, i, a, pending[a].serial);
        assert Sourced(h, l, all, i, a, pending[a]);
      } else {
        assert Sourced(h, l, all, |steps|, a, pending[a]);
      }
    }
  }

  /** A redemption takes the pending record of the address, in time and with its digest. */
  lemma StepRedeems(h: Hash, l: Limits, t: Trace, step: Step, serial: nat)
    requires serial in Apply(h, l, t, step).redeemed && serial !in t.redeemed
    ensures step.Redeem? && step.address in t.codes.pending
    ensures var p := t.codes.pending[step.address];
            p.serial == serial && step.now < p.expiresAt && h(serial, step.guess) == p.digest
  {
  }

  lemma StepEarned(h: Hash, l: Limits, steps: seq<Step>, last: Step, serial: nat)
    requires AllSourced(h, l, steps, Run(h, l, steps).codes.pending)
    requires serial in Apply(h, l, Run(h, l, steps), last).redeemed && serial !in Run(h, l, steps).redeemed
    ensures Earned(h, l, steps + [last], serial)
  {
    StepRedeems(h, l, Run(h, l, steps), last, serial);
    var i: nat :| Sourced(h, l, steps, i, last.address, Run(h, l, steps).codes.pending[last.address]);
    IssuedLater(h, l, steps, last, i, last.address, serial);
    assert (steps + [last])[|steps|] == last;
  }

  lemma {:induction false} RunIsSourced(h: Hash, l: Limits, steps: seq<Step>)
    ensures AllSourced(h, l, steps, Run(h, l, steps).codes.pending)
    ensures forall serial :: serial in Run(h, l, steps).redeemed ==> Earned(h, l, steps, serial)
  {
    if steps != [] {
      var front, last := steps[..|steps| - 1], steps[|steps| - 1];
      assert front + [last] == steps;
      RunIsSourced(h, l, front);
      StepSourced(h, l, front, last);
      forall serial | serial in Run(h, l, steps).redeemed
        ensures Earned(h, l, steps, serial)
      {
        if serial in Run(h, l, front).redeemed {
          EarnedLater(h, l, front, last, serial);
        } else {
          StepEarned(h, l, front, last, serial);
        }
      }
    }
  }

  /** Over every run: a serial number is redeemed only in time, by a guess with the digest of the code sent under it. */
  lemma RedeemedByItsCode(h: Hash, l: Limits, steps: seq<Step>, serial: nat)
    requires serial in Run(h, l, steps).redeemed
    ensures exists i: nat, j: nat ::
              && i < j < |steps| && steps[j].Redeem? && Issued(h, l, steps, i, steps[j].address, serial)
              && h(serial, steps[j].guess) == h(serial, steps[i].code) && steps[j].now < steps[i].now + l.ttl
  {
    RunIsSourced(h, l, steps);
    assert Earned(h, l, steps, serial);
  }

  /** Serial numbers are issued once. */
  lemma {:induction false} SerialsGrow(h: Hash, l: Limits, steps: seq<Step>, i: nat, address: string, serial: nat)
    requires Issued(h, l, steps, i, address, serial)
    ensures serial < Run(h, l, steps).codes.next
    decreases |steps|
  {
    var front, last := steps[..|steps| - 1], steps[|steps| - 1];
    assert front + [last] == steps;
    if i < |front| {
      assert front[..i] == steps[..i];
      SerialsGrow(h, l, front, i, address, serial);
    } else {
      assert steps[..i] == front;
    }
  }

  lemma IssuedOnce(h: Hash, l: Limits, steps: seq<Step>, i: nat, j: nat, a: string, b: string, serial: nat)
    requires Issued(h, l, steps, i, a, serial) && Issued(h, l, steps, j, b, serial)
    ensures i == j
  {
    if i < j {
      assert steps[..j][..i] == steps[..i];
      SerialsGrow(h, l, steps[..j], i, a, serial);
    } else if j < i {
      assert steps[..i][..j] == steps[..j];
      SerialsGrow(h, l, steps[..i], j, b, serial);
    }
  }

  /**
   * As long as the code sent in step i is pending, a guess redeems it exactly in time and with the
   * digest of the code, is late exactly after its term, and is wrong otherwise, at last for good.
   */
  lemma RedeemedIff(h: Hash, l: Limits, steps: seq<Step>, i: nat, address: string, serial: nat, guess: string, now: int)
    requires l.attempts > 0 && Issued(h, l, steps, i, address, serial)
    requires var c := Run(h, l, steps).codes; address in c.pending && c.pending[address].serial == serial
    ensures var (result, c') := ConsumeCode(h, l, Run(h, l, steps).codes, address, guess, now);
            var (inTime, fits) := (now < steps[i].now + l.ttl, h(serial, guess) == h(serial, steps[i].code));
            var missed := Count(Run(h, l, steps).wrong, serial) + 1;
            && (result == Redeemed(serial) <==> inTime && fits)
            && (result == Expired <==> !inTime)
            && (result == Wrong(serial, missed == l.attempts) <==> inTime && !fits)
            && missed <= l.attempts
            && (address in c'.pending <==> inTime && !fits && missed < l.attempts)
            && c'.pending - {address} == Run(h, l, steps).codes.pending - {address}
  {
    var t := Run(h, l, steps);
    var p := t.codes.pending[address];
    RunIsSound(h, l, steps);
    RunIsSourced(h, l, steps);
    var k: nat :| Sourced(h, l, steps, k, address, p);
    IssuedOnce(h, l, steps, i, k, address, address, serial);
    assert p.attempts == Count(t.wrong, serial);
    ConsumeAnswers(h, l, t.codes, address, guess, now);
  }

  lemma ConsumeAnswers(h: Hash, l: Limits, c: Codes, address: string, guess: string, now: int)
    requires address in c.pending && c.pending[address].attempts < l.attempts
    ensures var (result, c') := ConsumeCode(h, l, c, address, guess, now);
            var p := c.pending[address];
            var (inTime, fits, missed) := (now < p.expiresAt, h(p.serial, guess) == p.digest, p.attempts + 1);
            && (result == Redeemed(p.serial) <==> inTime && fits)
            && (result == Expired <==> !inTime)
            && (result == Wrong(p.serial, missed == l.attempts) <==> inTime && !fits)
            && (address in c'.pending <==> inTime && !fits && missed < l.attempts)
            && c'.pending - {address} == c.pending - {address}
  {
  }

  /** A pending code leaves its place in the table exactly by a new send, its own drop, or an end of guessing. */
  lemma StaysPendingIff(h: Hash, l: Limits, t: Trace, step: Step, address: string)
    requires Sound(l, t) && address in t.codes.pending
    ensures var (p, c) := (t.codes.pending[address], Apply(h, l, t, step).codes.pending);
            address in c && c[address].serial == p.serial <==>
              match step
              case Send(a, code, now) => a != address || !BeginSend(h, l, t.codes, a, code, now).0.Sent?
              case Drop(a, serial) => a != address || serial != p.serial
              case Redeem(a, guess, now) =>
                a != address || (now < p.expiresAt && h(p.serial, guess) != p.digest && p.attempts + 1 < l.attempts)
  {
  }

  lemma RequestsBefore(h: Hash, l: Limits, steps: seq<Step>, send: Step)
    requires send.Send? && SendsOrdered(steps + [send])
    ensures var arrival := ArrivalOf(l, Run(h, l, steps).codes, send);
            SlidingWindow.ClockOrdered(SlidingWindow.RequestsOf(Sends(h, l, steps), send.address) + [arrival.request])
  {
    var all := steps + [send];
    var arrival := ArrivalOf(l, Run(h, l, steps).codes, send);
    assert all[..|all| - 1] == steps;
    assert Sends(h, l, all) == Sends(h, l, steps) + [arrival];
    SendsAreOrdered(h, l, all);
    SlidingWindow.RequestsOrdered(Sends(h, l, all), send.address);
    SlidingWindow.ArrivalOneMore(l.hourly, HOUR, Sends(h, l, steps), arrival, send.address);
  }

  /** A send answers by the hour's sends so far, then by the age of a pending code. */
  lemma SendAnswers(h: Hash, l: Limits, steps: seq<Step>, address: string, code: string, now: int)
    requires SendsOrdered(steps + [Send(address, code, now)])
    ensures var c := Run(h, l, steps).codes;
            var result := BeginSend(h, l, c, address, code, now).0;
            var hour := |SlidingWindow.Recent(SentTimes(h, l, steps, address), now, HOUR)|;
            && (result == HourlyLimit <==> hour >= l.hourly)
            && (result == CoolingDown <==>
                  hour < l.hourly && address in c.pending && now - c.pending[address].issuedAt < l.cooldown)
            && (result.Sent? ==> result.serial == c.next)
  {
    var send := Send(address, code, now);
    var c := Run(h, l, steps).codes;
    var request := SlidingWindow.Request(now, Blocked(l, c, address, now));
    SendsAreWindows(h, l, steps, address);
    SlidingWindow.TableProjects(l.hourly, HOUR, Sends(h, l, steps), address);
    RequestsBefore(h, l, steps, send);
    SlidingWindow.LimitIsExact(l.hourly, HOUR, SlidingWindow.RequestsOf(Sends(h, l, steps), address), request);
  }

  // ----- the service -----

  class CodeTable {
    const hash: Hash
    const limits: Limits
    var pending: map<string, Pending>
    var sends: map<string, seq<int>>
    var next: nat

    constructor (hash: Hash, limits: Limits)
      ensures this.hash == hash && this.limits == limits && View() == Codes(map[], map[], 0)
    {
      this.hash, this.limits := hash, limits;
      pending, sends, next := map[], map[], 0;
    }

    function View(): (c: Codes)
      reads this
    {
      Codes(pending, sends, next)
    }

    method Begin(address: string, code: string, now: int) returns (result: SendResult)
      modifies this
      ensures (result, View()) == BeginSend(hash, limits, old(View()), address, code, now)
    {
      var history := SlidingWindow.Prune(SlidingWindow.Kept(sends, address), now, HOUR);
      if |history| >= limits.hourly {
        sends := sends[address := history];
        return HourlyLimit;
      }
      if address in pending && limits.cooldown - (now - pending[address].issuedAt) > 0 {
        sends := sends[address := history];
        return CoolingDown;
      }
      pending := pending[address := Pending(next, hash(next, code), now, now + limits.ttl, 0)];
      sends := sends[address := history + [now]];
      result := Sent(next);
      next := next + 1;
    }

    method Cancel(address: string, serial: nat)
      modifies this
      ensures View() == DropPending(old(View()), address, serial)
    {
      if address in pending && pending[address].serial == serial {
        pending := pending - {address};
      }
    }

    method Consume(address: string, guess: string, now: int) returns (result: RedeemResult)
      modifies this
      ensures (result, View()) == ConsumeCode(hash, limits, old(View()), address, guess, now)
    {
      if address !in pending {
        return NoCode;
      }
      var p := pending[address];
      if now >= p.expiresAt {
        pending := pending - {address};
        return Expired;
      }
      if hash(p.serial, guess) != p.digest {
        p := p.(attempts := p.attempts + 1);
        pending := pending[address := p];
        if p.attempts >= limits.attempts {
          pending := pending - {address};
          assert pending == old(pending) - {address};
          return Wrong(p.serial, true);
        }
        return Wrong(p.serial, false);
      }
      pending := pending - {address};
      result := Redeemed(p.serial);
    }
  }
}
