/** What a pick writes and a report opens, told from the request and the round alone. */
module DraftPicks {
  import opened Text
  import opened Draft
  import MixedPool
  import Hand

  // ----- picks -----

  /** The card a request asks for: its card id, or the candidate at its index if it names no card. */
  predicate Asks(r: Round, cardID: string, index: Option<int>, card: string) {
    if TrimSpace(cardID) != "" && TrimSpace(cardID) != "<nil>" then card == TrimSpace(cardID)
    else index.Some? && 0 <= index.value < |r.candidates| && card == r.candidates[index.value]
  }

  /** Whose turn it is: the first seat before any pick, the second seat after exactly one. */
  predicate Turn(r: Round, user: string) {
    || (user == r.first && r.picks == map[])
    || (user == r.second != "" && |r.picks| == 1)
  }

  /** The seat that has its turn may take any candidate the first seat does not hold. */
  ghost predicate MayPick(m: Match, user: string, cardID: string, index: Option<int>, card: string) {
    && m.draft.Some? && !m.draft.value.granted
    && var r := m.draft.value;
       && Turn(r, user) && Asks(r, cardID, index, card) && card in r.candidates
       && (r.first in r.picks ==> r.picks[r.first] != card)
  }

  /** A pick is accepted exactly in turn, for a candidate that is free; a refused one changes nothing. */
  lemma PickAcceptedIff(m: Match, user: string, cardID: string, index: Option<int>)
    requires Coherent(m)
    ensures Pick(m, user, cardID, index).0.None? <==> exists card :: MayPick(m, user, cardID, index, card)
    ensures Pick(m, user, cardID, index).0.Some? ==> Pick(m, user, cardID, index).1 == m
  {
    if Pick(m, user, cardID, index).0.None? {
      var card := if TrimSpace(cardID) != "" && TrimSpace(cardID) != "<nil>" then TrimSpace(cardID)
                  else m.draft.value.candidates[index.value];
      assert MayPick(m, user, cardID, index, card);
    }
  }

  /** A player with one more card: in the hand if a slot is free, else at the end of the queue. */
  predicate Gained(p: Hand.Player, p': Hand.Player, card: string) {
    && p' == p.(hand := p'.hand, pending := p'.pending)
    && (if |p.hand| < 4 then p'.hand == p.hand + [card] && p'.pending == p.pending
        else p'.hand == p.hand && p'.pending == p.pending + [card])
  }

  /** An accepted pick writes the very card that was asked for, and no other pick moves. */
  lemma PickWritesAsked(m: Match, user: string, cardID: string, index: Option<int>, card: string)
    requires Coherent(m) && MayPick(m, user, cardID, index, card)
    ensures var (error, m') := Pick(m, user, cardID, index);
            && error.None? && m'.draft.Some?
            && m'.draft.value == m.draft.value.(picks := m.draft.value.picks[user := card],
                                                granted := m'.draft.value.granted)
            && m' == m.(draft := m'.draft, players := m'.players, log := m'.log)
  {
  }

  /** It completes the round exactly when both seats hold a pick then, and each player gains exactly the own one. */
  lemma PickCompletes(m: Match, user: string, cardID: string, index: Option<int>, card: string)
    requires Coherent(m) && MayPick(m, user, cardID, index, card)
    ensures var m' := Pick(m, user, cardID, index).1;
            var r' := m'.draft.value;
            && (r'.granted <==> r'.second != "" && r'.first in r'.picks && r'.second in r'.picks)
            && (!r'.granted ==> m'.players == m.players && m'.log == m.log)
            && (r'.granted ==>
                  && m'.players.Keys == m.players.Keys
                  && (forall u :: u in m.players ==>
                        if u in r'.picks then Gained(m.players[u], m'.players[u], r'.picks[u])
                        else m'.players[u] == m.players[u]))
  {
    PickWritesAsked(m, user, cardID, index, card);
    var r := m.draft.value;
    PickKeepsRound(m, r, user, card);
    var picked := r.(picks := r.picks[user := card]);
    if AllPicked(picked) {
      GrantIsExact(m, picked);
    }
  }

  // ----- reports -----

  /** What a report leaves: an error and the match as it was, a new round, the second seat, or nothing. */
  lemma ReportAcceptedIff(units: Units, m: Match, user: string, boss: string, tick: int)
    ensures var (error, m') := Report(units, m, user, boss, tick);
            && (error.None? <==> user in m.players && tick >= 0 && TrimSpace(boss) != "")
            && (error.Some? ==> m' == m)
            && (m'.rounds != m.rounds <==> error.None? && OpensRound(m, boss))
            && (error.None? && m.draft.Some? && m.draft.value.boss != TrimSpace(boss) && !m.draft.value.granted
                ==> m' == m)
  {
  }

  /** A new round: the reporter sits first for thirty seconds, and up to three cards of the mixed pool lie open. */
  lemma OpenedRound(units: Units, m: Match, user: string, boss: string, tick: int)
    requires user in m.players && tick >= 0 && OpensRound(m, boss)
    ensures var m' := Report(units, m, user, boss, tick).1;
            && m'.draft.Some? && m' == m.(draft := m'.draft, rounds := m.rounds + 1)
            && var r := m'.draft.value;
               && r.index == m.rounds + 1 && r.boss == TrimSpace(boss) && r.first == user && r.second == ""
               && r.firstTick == tick && r.deadline == tick + 60 * 30 && r.picks == map[] && !r.granted && !r.tiebreak
               && NoRepeats(r.candidates)
               && (forall c :: c in r.candidates ==> MixedPool.InSomeDeck(Decks(m), c))
               && |r.candidates| == if |MixedPool.Pool(Decks(m))| < 3 then |MixedPool.Pool(Decks(m))| else 3
  {
    MixedPool.PoolIsMixed(Decks(m));
    MixedPool.DrawDistinct(MixedPool.Pool(Decks(m)), DrawUnits(units, m.rounds + 1, tick));
  }

  /** The second defeat of an open round takes the free seat, whoever sits first afterwards. */
  lemma SecondSeat(units: Units, m: Match, user: string, boss: string, tick: int)
    requires Coherent(m) && user in m.players && tick >= 0 && TrimSpace(boss) != ""
    requires m.draft.Some? && !m.draft.value.granted && m.draft.value.boss == TrimSpace(boss)
    ensures var (r, r') := (m.draft.value, Report(units, m, user, boss, tick).1.draft);
            && r'.Some?
            && (user == r.first || r.second != "" ==> r'.value == r)
            && (user != r.first && r.second == "" ==>
                  var leads := Earlier(m.order, user, tick, r.first, r.firstTick);
                  && r'.value.first == (if leads then user else r.first)
                  && r'.value.second == (if leads then r.first else user)
                  && r'.value.firstTick == (if tick < r.firstTick then tick else r.firstTick)
                  && r'.value.deadline == (if tick < r.firstTick then tick + 60 * 30 else r.deadline)
                  && r'.value.picks == r.picks && r'.value.candidates == r.candidates && !r'.value.granted)
  {
  }

  // ----- the deadline -----

  /** The free candidates keep the order of the round. */
  lemma {:induction false} FreeInOrder(candidates: seq<string>, last: string, taken: set<string>)
    ensures Remaining(candidates + [last], taken) == Remaining(candidates, taken) + if last in taken then [] else [last]
  {
    if candidates == [] {
      assert (candidates + [last])[1..] == [];
    } else {
      assert (candidates + [last])[1..] == candidates[1..] + [last];
      FreeInOrder(candidates[1..], last, taken);
    }
  }

  /** At the deadline the first seat gets its automatic pick before the second, and picks that were made stay. */
  lemma TimeoutPicks(units: Units, m: Match, target: int)
    requires Coherent(m) && m.draft.Some? && !m.draft.value.granted
    requires target > m.simulated && target >= m.draft.value.deadline
    ensures var (r, r') := (m.draft.value, Advance(units, m, target).draft);
            var once := if r.first in r.picks then r
                        else if AutoPick(units, r) == "" then r
                        else r.(picks := r.picks[r.first := AutoPick(units, r)]);
            && r'.Some? && r'.value.granted
            && r'.value.picks ==
                 if r.second == "" || r.second in r.picks || AutoPick(units, once) == "" then once.picks
                 else once.picks[r.second := AutoPick(units, once)]
  {
    AdvanceCases(units, m, target);
  }
}
