/**
 * The mixed-pool draft of a battle-royale match: two seats that may report out of
 * order, picks in two phases, one atomic grant, and a deadline that closes a round.
 */
module Draft {
  import opened Text
  import opened GachaRolls
  import MixedPool
  import Hand

  const CHOICE_TICKS: int := 60 * 30

  /** A round; an absent second seat is the empty user id. */
  datatype Round = Round(index: nat, boss: string, candidates: seq<string>, first: string, second: string,
                         firstTick: int, tiebreak: bool, picks: map<string, string>, granted: bool, deadline: int)

  /** One granted card, as the event log records it. */
  datatype Entry = Entry(round: nat, user: string, card: string)

  /** The generator of the match: a number for each tick, stream and index. */
  type Units = (int, string, int) -> Unit

  /** order lists the players by id; simulated is the last simulated tick. */
  datatype Match = Match(order: seq<string>, players: map<string, Hand.Player>, tick: int, simulated: int,
                         draft: Option<Round>, rounds: nat, log: seq<Entry>)

  // ----- reports -----

  function Decks(m: Match): (decks: seq<seq<string>>) {
    seq(|m.order|, i requires 0 <= i < |m.order| =>
      if m.order[i] in m.players then m.players[m.order[i]].deck else [])
  }

  /** The numbers the draw of a round asks for. */
  function DrawUnits(units: Units, index: nat, tick: int): (f: nat -> Unit) {
    i => units(tick, "draft_draw", index * MixedPool.PICK_COUNT + i)
  }

  function DrawFor(units: Units, m: Match, index: nat, tick: int): (candidates: seq<string>) {
    MixedPool.Draw(MixedPool.Pool(Decks(m)), DrawUnits(units, index, tick))
  }

  function OpenRound(units: Units, m: Match, user: string, boss: string, tick: int): (m': Match) {
    var index := m.rounds + 1;
    var round := Round(index, boss, DrawFor(units, m, index, tick), user, "", tick, false, map[], false,
                       tick + CHOICE_TICKS);
    m.(rounds := index, draft := Some(round))
  }

  /** indexOfString. */
  function IndexOf(order: seq<string>, user: string): (i: int)
    ensures -1 <= i < |order|
    ensures i >= 0 ==> order[i] == user
    ensures i == -1 ==> user !in order
  {
    if order == [] then -1
    else if order[0] == user then 0
    else
      var i := IndexOf(order[1..], user);
      if i < 0 then -1 else i + 1
  }

  /** recordDraftDefeatLocked: the second seat, with the earlier defeat always first. */
  function RecordDefeat(order: seq<string>, r: Round, user: string, tick: int): (r': Round) {
    if r.granted || user == r.first || r.second != "" then r
    else if tick < r.firstTick then
      r.(second := r.first, first := user, firstTick := tick, deadline := tick + CHOICE_TICKS)
    else if tick == r.firstTick then
      if IndexOf(order, user) < IndexOf(order, r.first) then r.(second := r.first, first := user, tiebreak := true)
      else r.(second := user, tiebreak := true)
    else r.(second := user)
  }

  datatype ReportError = NotAPlayer | NegativeTick | BlankBoss

  /** A boss-defeat report: it opens a round, feeds the open one, or is skipped. */
  function Report(units: Units, m: Match, user: string, boss: string, tick: int)
    : (r: (Option<ReportError>, Match))
  {
    var id := TrimSpace(boss);
    if user !in m.players then (Some(NotAPlayer), m)
    else if tick < 0 then (Some(NegativeTick), m)
    else if id == "" then (Some(BlankBoss), m)
    else
      match m.draft
      case None => (None, OpenRound(units, m, user, id, tick))
      case Some(round) =>
        if round.boss == id then (None, m.(draft := Some(RecordDefeat(m.order, round, user, tick))))
        else if !round.granted then (None, m)
        else (None, OpenRound(units, m, user, id, tick))
  }

  // ----- picks and grants -----

  predicate AllPicked(r: Round) {
    r.first in r.picks && r.second != "" && r.second in r.picks
  }

  function GrantTo(players: map<string, Hand.Player>, r: Round, user: string): (players': map<string, Hand.Player>) {
    if user != "" && user in r.picks && user in players
    then players[user := Hand.Grant(players[user], r.picks[user])] else players
  }

  function EntryOf(m: Match, r: Round, user: string): (e: seq<Entry>) {
    if user != "" && user in r.picks && user in m.players then [Entry(r.index, user, r.picks[user])] else []
  }

  /** grantDraftLocked: both picks reach their owners in one step. */
  function GrantRound(m: Match, r: Round): (m': Match) {
    m.(players := GrantTo(GrantTo(m.players, r, r.first), r, r.second),
       log := m.log + EntryOf(m, r, r.first) + EntryOf(m, r, r.second),
       draft := Some(r.(granted := true)))
  }

  datatype PickError = NoOpenRound | IndexOutOfRange | CardRequired | AlreadyTaken | NotDesignated | NotACandidate

  /** draftPickCardID; the card id wins over the candidate index. */
  function PickedCard(r: Round, cardID: string, index: Option<int>): (c: (Option<PickError>, string)) {
    var card := if TrimSpace(cardID) == "<nil>" then "" else TrimSpace(cardID);
    if card != "" then (None, card)
    else
      match index
      case None => (Some(CardRequired), "")
      case Some(i) => if 0 <= i < |r.candidates| then (None, r.candidates[i]) else (Some(IndexOutOfRange), "")
  }

  /** Whether the user may take the card now, by seat and phase. */
  function Seating(r: Round, user: string, card: string): (e: Option<PickError>) {
    if user == r.first && |r.picks| == 0 then None
    else if r.second != "" && user == r.second && |r.picks| == 1 then
      if r.first in r.picks && r.picks[r.first] == card then Some(AlreadyTaken) else None
    else Some(NotDesignated)
  }

  /** A pick, and the grant it may complete. */
  function Pick(m: Match, user: string, cardID: string, index: Option<int>): (r: (Option<PickError>, Match)) {
    if m.draft.None? || m.draft.value.granted then (Some(NoOpenRound), m)
    else
      var round := m.draft.value;
      var (bad, card) := PickedCard(round, cardID, index);
      if bad.Some? then (bad, m)
      else
        var seating := Seating(round, user, card);
        if seating.Some? then (seating, m)
        else if card !in round.candidates then (Some(NotACandidate), m)
        else
          var picked := round.(picks := round.picks[user := card]);
          (None, if AllPicked(picked) then GrantRound(m, picked) else m.(draft := Some(picked)))
  }

  // ----- the deadline -----

  function Remaining(candidates: seq<string>, taken: set<string>): (rest: seq<string>)
    ensures forall c :: c in rest <==> c in candidates && c !in taken
  {
    if candidates == [] then []
    else (if candidates[0] in taken then [] else [candidates[0]]) + Remaining(candidates[1..], taken)
  }

  /** The order of the automatic pick: by drawn number, then by card id. */
  predicate Before(score: nat -> Unit, cards: seq<string>, i: nat, j: nat)
    requires i < |cards| && j < |cards|
  {
    score(i) < score(j) || (score(i) == score(j) && Less(cards[i], cards[j]))
  }

  /** The least position below k. */
  function Least(score: nat -> Unit, cards: seq<string>, k: nat): (best: nat)
    requires 0 < k <= |cards|
    ensures best < k
  {
    if k == 1 then 0
    else
      var best := Least(score, cards, k - 1);
      if Before(score, cards, k - 1, best) then k - 1 else best
  }

  /** autoDraftPick; the empty string when every candidate is taken. */
  function AutoPick(units: Units, r: Round): (card: string) {
    var rest := Remaining(r.candidates, r.picks.Values);
    if rest == [] then "" else rest[Least(i => units(r.deadline, "draft_auto", i), rest, |rest|)]
  }

  function AutoPickFor(units: Units, r: Round, user: string): (r': Round) {
    if user == "" || user in r.picks || AutoPick(units, r) == "" then r
    else r.(picks := r.picks[user := AutoPick(units, r)])
  }

  /** resolveDraftTimeoutLocked. */
  function ResolveTimeout(units: Units, m: Match): (m': Match) {
    if m.draft.None? || m.draft.value.granted || m.tick < m.draft.value.deadline then m
    else
      var r := m.draft.value;
      GrantRound(m, AutoPickFor(units, AutoPickFor(units, r, r.first), r.second))
  }

  /** The tick moves with an input; a simulated advance looks at the deadline. */
  function Advance(units: Units, m: Match, target: int): (m': Match) {
    var moved := m.(tick := if target > m.tick then target else m.tick);
    if target <= m.simulated then moved else ResolveTimeout(units, moved.(simulated := target))
  }

  function PlayCard(catalog: Hand.Catalog, m: Match, user: string, slot: int, tick: int): (m': Match) {
    if user !in m.players then m
    else m.(players := m.players[user := Hand.Play(catalog, m.players[user], slot, tick).1])
  }

  // ----- what every step keeps -----

  predicate Seat(r: Round, user: string) { user == r.first || (r.second != "" && user == r.second) }

  /** Two seats for two players, and an injective choice of candidates by them. */
  ghost predicate RoundOK(m: Match, r: Round) {
    && r.index == m.rounds >= 1
    && r.first in m.players
    && (r.second == "" || (r.second in m.players && r.second != r.first))
    && NoRepeats(r.candidates) && "" !in r.candidates
    && (forall u :: u in r.picks ==> Seat(r, u) && r.picks[u] in r.candidates)
    && (forall u, v :: u in r.picks && v in r.picks && u != v ==> r.picks[u] != r.picks[v])
    && (!r.granted ==> !AllPicked(r))
  }

  /** Grants come in round order; inside a round no seat and no card is granted twice. */
  ghost predicate LogOK(log: seq<Entry>) {
    forall i, j :: 0 <= i < j < |log| ==>
      && log[i].round <= log[j].round
      && (log[i].round == log[j].round ==> log[i].user != log[j].user && log[i].card != log[j].card)
  }

  /** No entry of the log belongs to a round after the given one. */
  predicate UpTo(log: seq<Entry>, index: int) { forall i :: 0 <= i < |log| ==> log[i].round <= index }

  ghost predicate HandsOK(players: map<string, Hand.Player>) {
    forall u :: u in players ==> Hand.Sound(players[u])
  }

  ghost predicate Coherent(m: Match) {
    && "" !in m.players && (forall u :: u in m.players ==> u in m.order)
    && HandsOK(m.players)
    && LogOK(m.log)
    && match m.draft
       case None => m.log == []
       case Some(r) => RoundOK(m, r) && UpTo(m.log, if r.granted then m.rounds else m.rounds - 1)
  }

  lemma DrawIsDistinct(units: Units, m: Match, index: nat, tick: int)
    ensures NoRepeats(DrawFor(units, m, index, tick)) && "" !in DrawFor(units, m, index, tick)
  {
    MixedPool.PoolIsMixed(Decks(m));
    MixedPool.DrawDistinct(MixedPool.Pool(Decks(m)), DrawUnits(units, index, tick));
  }

  lemma OpenKeepsCoherent(units: Units, m: Match, user: string, boss: string, tick: int)
    requires Coherent(m) && user in m.players
    requires m.draft.None? || m.draft.value.granted
    ensures Coherent(OpenRound(units, m, user, boss, tick))
  {
    DrawIsDistinct(units, m, m.rounds + 1, tick);
  }

  /** Seats may still be reordered after a pick; the picks stay an injective choice of the two seats. */
  lemma RecordKeepsRound(m: Match, r: Round, user: string, tick: int)
    requires RoundOK(m, r) && user in m.players && "" !in m.players
    ensures RoundOK(m, RecordDefeat(m.order, r, user, tick))
    ensures RecordDefeat(m.order, r, user, tick).granted == r.granted
    ensures RecordDefeat(m.order, r, user, tick).picks == r.picks
  {
  }

  lemma ReportKeepsCoherent(units: Units, m: Match, user: string, boss: string, tick: int)
    requires Coherent(m)
    ensures Coherent(Report(units, m, user, boss, tick).1)
  {
    if Report(units, m, user, boss, tick).0.None? {
      if m.draft.None? || (m.draft.value.boss != TrimSpace(boss) && m.draft.value.granted) {
        OpenKeepsCoherent(units, m, user, TrimSpace(boss), tick);
      } else {
        RecordKeepsRound(m, m.draft.value, user, tick);
      }
    }
  }

  /** A round in every respect but that it may be fully picked: the state just before a grant. */
  ghost predicate Grantable(m: Match, r: Round) {
    !r.granted && RoundOK(m, r.(granted := true))
  }

  /** The grant adds exactly each pick, once, to its owner. */
  lemma GrantIsExact(m: Match, r: Round)
    requires "" !in m.players && Grantable(m, r)
    ensures var m' := GrantRound(m, r);
            && m'.players.Keys == m.players.Keys
            && (forall u :: u in m.players ==>
                  m'.players[u] == if u in r.picks then Hand.Grant(m.players[u], r.picks[u]) else m.players[u])
  {
  }

  lemma GrantKeepsHands(m: Match, r: Round)
    requires "" !in m.players && Grantable(m, r) && HandsOK(m.players)
    ensures HandsOK(GrantRound(m, r).players)
  {
    GrantIsExact(m, r);
    forall u | u in m.players && u in r.picks
      ensures Hand.Sound(Hand.Grant(m.players[u], r.picks[u]))
    {
      Hand.GrantAdds(m.players[u], r.picks[u]);
    }
  }

  lemma GrantKeepsLog(m: Match, r: Round)
    requires Grantable(m, r) && LogOK(m.log) && UpTo(m.log, m.rounds - 1)
    ensures LogOK(GrantRound(m, r).log) && UpTo(GrantRound(m, r).log, m.rounds)
  {
    var first, second := EntryOf(m, r, r.first), EntryOf(m, r, r.second);
    assert forall i :: 0 <= i < |first| ==> first[i] == Entry(r.index, r.first, r.picks[r.first]);
    assert forall i :: 0 <= i < |second| ==> second[i] == Entry(r.index, r.second, r.picks[r.second]);
  }

  lemma GrantKeepsCoherent(m: Match, r: Round)
    requires Coherent(m) && m.draft.Some? && !m.draft.value.granted && Grantable(m, r)
    ensures Coherent(GrantRound(m, r))
  {
    GrantIsExact(m, r);
    GrantKeepsHands(m, r);
    GrantKeepsLog(m, r);
  }

  /** An accepted pick writes one candidate that no other seat holds. */
  lemma PickKeepsRound(m: Match, r: Round, user: string, card: string)
    requires RoundOK(m, r) && !r.granted && Seating(r, user, card).None? && card in r.candidates
    ensures Grantable(m, r.(picks := r.picks[user := card]))
  {
    if user == r.first {
      assert r.picks == map[];
    } else {
      assert forall u :: u in r.picks && u != user ==> u == r.first;
    }
  }

  lemma PickKeepsCoherent(m: Match, user: string, cardID: string, index: Option<int>)
    requires Coherent(m)
    ensures Coherent(Pick(m, user, cardID, index).1)
  {
    if Pick(m, user, cardID, index).0.None? {
      var r := m.draft.value;
      var card := PickedCard(r, cardID, index).1;
      PickKeepsRound(m, r, user, card);
      var picked := r.(picks := r.picks[user := card]);
      if AllPicked(picked) {
        GrantKeepsCoherent(m, picked);
      }
    }
  }

  /** The automatic pick takes a candidate nobody holds, if there is one. */
  lemma AutoPickIsFree(units: Units, r: Round)
    requires AutoPick(units, r) != ""
    ensures AutoPick(units, r) in r.candidates
    ensures forall u :: u in r.picks ==> r.picks[u] != AutoPick(units, r)
  {
    var card := AutoPick(units, r);
    assert card in Remaining(r.candidates, r.picks.Values);
    forall u | u in r.picks
      ensures r.picks[u] != card
    {
      assert r.picks[u] in r.picks.Values;
    }
  }

  /** A free candidate written for an empty seat keeps the choice injective. */
  lemma PutKeepsRound(m: Match, r: Round, user: string, card: string)
    requires Grantable(m, r) && Seat(r, user) && user !in r.picks && card in r.candidates
    requires forall u :: u in r.picks ==> r.picks[u] != card
    ensures Grantable(m, r.(picks := r.picks[user := card]))
  {
  }

  lemma AutoPickKeepsRound(units: Units, m: Match, r: Round, user: string)
    requires Grantable(m, r) && (user == "" || Seat(r, user))
    ensures Grantable(m, AutoPickFor(units, r, user))
    ensures AutoPickFor(units, r, user).(picks := r.picks) == r
  {
    var card := AutoPick(units, r);
    if user != "" && user !in r.picks && card != "" {
      AutoPickIsFree(units, r);
      PutKeepsRound(m, r, user, card);
    }
  }

  /** The round as the deadline grants it. */
  function AutoPicked(units: Units, r: Round): (r': Round) {
    AutoPickFor(units, AutoPickFor(units, r, r.first), r.second)
  }

  lemma AutoPickedKeepsRound(units: Units, m: Match, r: Round)
    requires RoundOK(m, r) && !r.granted
    ensures Grantable(m, AutoPicked(units, r)) && AutoPicked(units, r).(picks := r.picks) == r
  {
    AutoPickKeepsRound(units, m, r, r.first);
    AutoPickKeepsRound(units, m, AutoPickFor(units, r, r.first), r.second);
  }

  lemma AdvanceKeepsCoherent(units: Units, m: Match, target: int)
    requires Coherent(m)
    ensures Coherent(Advance(units, m, target))
  {
    var moved := m.(tick := if target > m.tick then target else m.tick);
    if target > m.simulated {
      var s := moved.(simulated := target);
      if s.draft.Some? && !s.draft.value.granted && s.tick >= s.draft.value.deadline {
        AutoPickedKeepsRound(units, s, s.draft.value);
        GrantKeepsCoherent(s, AutoPicked(units, s.draft.value));
      }
    }
  }

  lemma PlayKeepsCoherent(catalog: Hand.Catalog, m: Match, user: string, slot: int, tick: int)
    requires Coherent(m)
    ensures Coherent(PlayCard(catalog, m, user, slot, tick))
  {
    if user in m.players && Hand.Refusal(catalog, m.players[user], slot, tick).None? {
      Hand.PlayShape(catalog, m.players[user], slot, tick);
    }
  }

  // ----- every run -----

  datatype Step =
    | DoReport(user: string, boss: string, tick: int)
    | DoPick(user: string, cardID: string, index: Option<int>)
    | DoAdvance(target: int)
    | DoPlay(user: string, slot: int, tick: int)

  function Apply(units: Units, catalog: Hand.Catalog, m: Match, step: Step): (m': Match) {
    match step
    case DoReport(user, boss, tick) => Report(units, m, user, boss, tick).1
    case DoPick(user, cardID, index) => Pick(m, user, cardID, index).1
    case DoAdvance(target) => Advance(units, m, target)
    case DoPlay(user, slot, tick) => PlayCard(catalog, m, user, slot, tick)
  }

  lemma StepKeepsCoherent(units: Units, catalog: Hand.Catalog, m: Match, step: Step)
    requires Coherent(m)
    ensures Coherent(Apply(units, catalog, m, step))
  {
    match step
    case DoReport(user, boss, tick) => ReportKeepsCoherent(units, m, user, boss, tick);
    case DoPick(user, cardID, index) => PickKeepsCoherent(m, user, cardID, index);
    case DoAdvance(target) => AdvanceKeepsCoherent(units, m, target);
    case DoPlay(user, slot, tick) => PlayKeepsCoherent(catalog, m, user, slot, tick);
  }

  function Run(units: Units, catalog: Hand.Catalog, start: Match, steps: seq<Step>): (m: Match) {
    if steps == [] then start
    else Apply(units, catalog, Run(units, catalog, start, steps[..|steps| - 1]), steps[|steps| - 1])
  }

  /** A fresh match: players with sound hands, no round yet. */
  ghost predicate Fresh(m: Match) {
    && "" !in m.players && (forall u :: u in m.players ==> u in m.order)
    && HandsOK(m.players) && m.draft.None? && m.log == []
  }

  /** In every reachable state: two different seats, injective picks, no double grant, sound hands. */
  lemma {:induction false} RunIsCoherent(units: Units, catalog: Hand.Catalog, start: Match, steps: seq<Step>)
    requires Fresh(start)
    ensures Coherent(Run(units, catalog, start, steps))
  {
    if steps != [] {
      var front := steps[..|steps| - 1];
      RunIsCoherent(units, catalog, start, front);
      StepKeepsCoherent(units, catalog, Run(units, catalog, start, front), steps[|steps| - 1]);
    }
  }

  // ----- when cards move -----

  /** The step granted the open round: each pick went to its owner, once, and the round is closed. */
  ghost predicate GrantedBy(m: Match, m': Match) {
    && m.draft.Some? && !m.draft.value.granted
    && m'.draft.Some? && m'.draft.value.granted && m'.draft.value.index == m.draft.value.index
    && (AllPicked(m'.draft.value) || m'.tick >= m'.draft.value.deadline)
    && var r := m'.draft.value;
       && m'.log == m.log + EntryOf(m, r, r.first) + EntryOf(m, r, r.second)
       && m'.players.Keys == m.players.Keys
       && forall u :: u in m.players ==>
            m'.players[u] == if u in r.picks then Hand.Grant(m.players[u], r.picks[u]) else m.players[u]
  }

  lemma GrantRoundGrants(m: Match, r: Round)
    requires Coherent(m) && m.draft.Some? && !m.draft.value.granted
    requires Grantable(m, r) && r.index == m.draft.value.index
    requires AllPicked(r) || m.tick >= r.deadline
    ensures GrantedBy(m, GrantRound(m, r))
  {
    GrantIsExact(m, r);
  }

  lemma PickGrants(m: Match, user: string, cardID: string, index: Option<int>)
    requires Coherent(m)
    ensures var m' := Pick(m, user, cardID, index).1;
            (m'.players == m.players && m'.log == m.log) || GrantedBy(m, m')
  {
    if Pick(m, user, cardID, index).0.None? {
      var r := m.draft.value;
      var card := PickedCard(r, cardID, index).1;
      PickKeepsRound(m, r, user, card);
      var picked := r.(picks := r.picks[user := card]);
      if AllPicked(picked) {
        GrantRoundGrants(m, picked);
      }
    }
  }

  /** The match as a simulated advance leaves it before it looks at the deadline. */
  function Ticked(m: Match, target: int): (m': Match) {
    m.(tick := if target > m.tick then target else m.tick, simulated := target)
  }

  lemma AdvanceCases(units: Units, m: Match, target: int)
    ensures var s := Ticked(m, target);
            var due := target > m.simulated && m.draft.Some? && !m.draft.value.granted
                       && s.tick >= m.draft.value.deadline;
            && (due ==> Advance(units, m, target) == GrantRound(s, AutoPicked(units, m.draft.value)))
            && (!due ==> Advance(units, m, target).players == m.players && Advance(units, m, target).log == m.log)
  {
  }

  lemma TimeoutGrants(units: Units, m: Match, s: Match, r: Round)
    requires Coherent(m) && m.draft == Some(r) && !r.granted
    requires s == m.(tick := s.tick, simulated := s.simulated) && s.tick >= r.deadline
    ensures GrantedBy(m, GrantRound(s, AutoPicked(units, r)))
    ensures GrantRound(s, AutoPicked(units, r)).draft == Some(AutoPicked(units, r).(granted := true))
  {
    AutoPickedKeepsRound(units, s, r);
    GrantIsExact(s, AutoPicked(units, r));
  }

  lemma AdvanceGrants(units: Units, m: Match, target: int)
    requires Coherent(m)
    ensures var m' := Advance(units, m, target);
            (m'.players == m.players && m'.log == m.log) || GrantedBy(m, m')
  {
    AdvanceCases(units, m, target);
    var s := Ticked(m, target);
    if target > m.simulated && m.draft.Some? && !m.draft.value.granted && s.tick >= m.draft.value.deadline {
      TimeoutGrants(units, m, s, m.draft.value);
    }
  }

  /**
   * Reports, picks and ticks move no card except through the one grant of the open
   * round, which needs both picks or the deadline.
   */
  lemma CardsMoveOnlyByGrant(units: Units, catalog: Hand.Catalog, m: Match, step: Step)
    requires Coherent(m) && !step.DoPlay?
    ensures var m' := Apply(units, catalog, m, step);
            (m'.players == m.players && m'.log == m.log) || GrantedBy(m, m')
  {
    match step
    case DoReport(_, _, _) =>
    case DoPick(user, cardID, index) => PickGrants(m, user, cardID, index);
    case DoAdvance(target) => AdvanceGrants(units, m, target);
  }

  /** Fewer picks than candidates: the automatic pick finds a card. */
  lemma SomeCandidateLeft(units: Units, r: Round, user: string)
    requires NoRepeats(r.candidates) && "" !in r.candidates
    requires r.picks.Keys <= {user}
    requires |r.candidates| >= 2 || (r.picks == map[] && |r.candidates| >= 1)
    ensures AutoPick(units, r) != ""
  {
    var rest := Remaining(r.candidates, r.picks.Values);
    var free := if user in r.picks && r.candidates[0] == r.picks[user] then r.candidates[1] else r.candidates[0];
    assert free in rest;
    var card := rest[Least(i => units(r.deadline, "draft_auto", i), rest, |rest|)];
    assert card in rest;
  }

  /** Two candidates are enough for both seats at the deadline, one for one of them. */
  lemma SeatsPick(units: Units, r: Round)
    requires NoRepeats(r.candidates) && "" !in r.candidates
    requires r.picks.Keys <= {r.first} || r.picks.Keys <= {r.second}
    requires r.first != "" && r.first != r.second
    ensures |r.candidates| >= 1 ==> AutoPicked(units, r).picks != map[]
    ensures |r.candidates| >= 2 ==> r.first in AutoPicked(units, r).picks
    ensures |r.candidates| >= 2 && r.second != "" ==> r.second in AutoPicked(units, r).picks
  {
    if |r.candidates| >= 2 || (r.picks == map[] && |r.candidates| >= 1) {
      SomeCandidateLeft(units, r, if r.picks.Keys <= {r.first} then r.first else r.second);
      var once := AutoPickFor(units, r, r.first);
      assert r.first in once.picks;
      if |r.candidates| >= 2 && r.second != "" && r.second !in once.picks {
        assert once.picks.Keys <= {r.first};
        SomeCandidateLeft(units, once, r.first);
      }
      assert r.first in AutoPicked(units, r).picks;
    }
  }

  /** Before a round is granted at most one seat has picked. */
  lemma OneSeatPicked(m: Match, r: Round)
    requires RoundOK(m, r) && !r.granted
    ensures r.picks.Keys <= {r.first} || r.picks.Keys <= {r.second}
  {
    assert forall u :: u in r.picks ==> Seat(r, u);
  }

  /**
   * A round never hangs: a simulated tick at its deadline grants it. With two candidates
   * every seat gets a card; with one, a card is still granted.
   */
  lemma DeadlineCloses(units: Units, m: Match, target: int)
    requires Coherent(m) && m.draft.Some? && !m.draft.value.granted
    requires target > m.simulated && target >= m.draft.value.deadline
    ensures GrantedBy(m, Advance(units, m, target))
    ensures var r := Advance(units, m, target).draft.value;
            && (|r.candidates| >= 1 ==> r.picks != map[])
            && (|r.candidates| >= 2 ==> r.first in r.picks && (r.second != "" ==> r.second in r.picks))
  {
    AdvanceCases(units, m, target);
    TimeoutGrants(units, m, Ticked(m, target), m.draft.value);
    AutoPickedKeepsRound(units, m, m.draft.value);
    OneSeatPicked(m, m.draft.value);
    SeatsPick(units, m.draft.value);
  }

  // ----- the automatic pick is the least free candidate -----

  /** Before is transitive, and total on positions that hold different cards. */
  lemma BeforeChains(score: nat -> Unit, cards: seq<string>, i: nat, j: nat, k: nat)
    requires i < |cards| && j < |cards| && k < |cards|
    ensures Before(score, cards, i, j) && Before(score, cards, j, k) ==> Before(score, cards, i, k)
    ensures cards[i] != cards[j] ==> Before(score, cards, i, j) || Before(score, cards, j, i)
  {
    LessTotal(cards[i], cards[j]);
    if Less(cards[i], cards[j]) && Less(cards[j], cards[k]) {
      LessTransitive(cards[i], cards[j], cards[k]);
    }
  }

  lemma {:induction false} LeastIsLeast(score: nat -> Unit, cards: seq<string>, k: nat, j: nat)
    requires NoRepeats(cards) && j < k <= |cards|
    ensures j == Least(score, cards, k) || Before(score, cards, Least(score, cards, k), j)
  {
    if k > 1 {
      var best := Least(score, cards, k - 1);
      BeforeChains(score, cards, k - 1, best, j);
      BeforeChains(score, cards, best, k - 1, j);
      if j < k - 1 {
        LeastIsLeast(score, cards, k - 1, j);
      }
    }
  }

  lemma {:induction false} RemainingDistinct(candidates: seq<string>, taken: set<string>)
    requires NoRepeats(candidates)
    ensures NoRepeats(Remaining(candidates, taken))
  {
    if candidates != [] {
      var tail := Remaining(candidates[1..], taken);
      RemainingDistinct(candidates[1..], taken);
      assert forall k :: 0 <= k < |tail| ==> tail[k] in tail && tail[k] in candidates[1..];
    }
  }

  /** Whatever the drawn numbers, the automatic pick is the first of the free candidates by number, then by id. */
  lemma AutoPickIsLeast(units: Units, r: Round, j: nat)
    requires NoRepeats(r.candidates)
    requires j < |Remaining(r.candidates, r.picks.Values)|
    ensures var rest := Remaining(r.candidates, r.picks.Values);
            var score := (i: nat) => units(r.deadline, "draft_auto", i);
            exists best :: 0 <= best < |rest| && AutoPick(units, r) == rest[best]
                           && (best == j || Before(score, rest, best, j))
  {
    var rest := Remaining(r.candidates, r.picks.Values);
    var score := (i: nat) => units(r.deadline, "draft_auto", i);
    RemainingDistinct(r.candidates, r.picks.Values);
    LeastIsLeast(score, rest, |rest|, j);
    assert AutoPick(units, r) == rest[Least(score, rest, |rest|)];
  }

  // ----- arrival order does not decide the seats -----

  /** a comes first: the earlier tick, or the smaller id on the same tick. */
  predicate Earlier(order: seq<string>, a: string, ta: int, b: string, tb: int) {
    ta < tb || (ta == tb && IndexOf(order, a) < IndexOf(order, b))
  }

  /** The next report of this boss opens a round. */
  predicate OpensRound(m: Match, boss: string) {
    TrimSpace(boss) != "" && (m.draft.None? || (m.draft.value.granted && m.draft.value.boss != TrimSpace(boss)))
  }

  function BothReport(units: Units, m: Match, a: string, ta: int, b: string, tb: int, boss: string): (m': Match) {
    Report(units, Report(units, m, a, boss, ta).1, b, boss, tb).1
  }

  /** The seats of a round that both players reported, whoever arrived first. */
  lemma SeatsByDefeat(units: Units, m: Match, a: string, ta: int, b: string, tb: int, boss: string)
    requires a in m.players && b in m.players && a in m.order && b in m.order && a != b && "" !in m.players
    requires ta >= 0 && tb >= 0 && OpensRound(m, boss)
    ensures var r := BothReport(units, m, a, ta, b, tb, boss).draft;
            var lead := Earlier(m.order, a, ta, b, tb);
            && r.Some? && !r.value.granted && r.value.picks == map[] && r.value.boss == TrimSpace(boss)
            && r.value.index == m.rounds + 1
            && r.value.first == (if lead then a else b) && r.value.second == (if lead then b else a)
            && r.value.firstTick == (if lead then ta else tb)
            && r.value.deadline == r.value.firstTick + CHOICE_TICKS
            && r.value.tiebreak == (ta == tb)
  {
    var begun := Report(units, m, a, boss, ta).1;
    assert begun == OpenRound(units, m, a, TrimSpace(boss), ta);
    var round := begun.draft.value;
    assert Report(units, begun, b, boss, tb).1 == begun.(draft := Some(RecordDefeat(m.order, round, b, tb)));
  }

  /** Seat confluence: both arrival orders agree on everything but the drawn candidates. */
  lemma SeatConfluence(units: Units, m: Match, a: string, ta: int, b: string, tb: int, boss: string)
    requires Coherent(m) && a in m.players && b in m.players && a != b
    requires ta >= 0 && tb >= 0 && OpensRound(m, boss)
    ensures var ab := BothReport(units, m, a, ta, b, tb, boss).draft;
            var ba := BothReport(units, m, b, tb, a, ta, boss).draft;
            ab.Some? && ba.Some? && ab.value == ba.value.(candidates := ab.value.candidates)
  {
    assert IndexOf(m.order, a) != IndexOf(m.order, b);
    assert Earlier(m.order, a, ta, b, tb) != Earlier(m.order, b, tb, a, ta);
    SeatsByDefeat(units, m, a, ta, b, tb, boss);
    SeatsByDefeat(units, m, b, tb, a, ta, boss);
  }

  // ----- a round whose seats were reordered after the first pick -----

  /** The second seat holds a card, the first seat does not: no pick can complete the round. */
  predicate Blocked(m: Match) {
    m.draft.Some? && !m.draft.value.granted && m.draft.value.second in m.draft.value.picks
    && m.draft.value.first !in m.draft.value.picks
  }

  /** A late report of an earlier (or tied but smaller) defeat, after the only seat has picked. */
  predicate Overtakes(m: Match, user: string, boss: string, tick: int) {
    && m.draft.Some? && !m.draft.value.granted && m.draft.value.boss == TrimSpace(boss) && TrimSpace(boss) != ""
    && user in m.players && tick >= 0
    && m.draft.value.first in m.draft.value.picks && m.draft.value.second == "" && user != m.draft.value.first
    && Earlier(m.order, user, tick, m.draft.value.first, m.draft.value.firstTick)
  }

  lemma ReportBlocksIff(units: Units, m: Match, user: string, boss: string, tick: int)
    requires Coherent(m) && !Blocked(m)
    ensures Blocked(Report(units, m, user, boss, tick).1) <==> Overtakes(m, user, boss, tick)
  {
    if m.draft.Some? && m.draft.value.boss == TrimSpace(boss) && user in m.players && tick >= 0
       && TrimSpace(boss) != "" {
      var r := m.draft.value;
      assert Report(units, m, user, boss, tick).1 == m.(draft := Some(RecordDefeat(m.order, r, user, tick)));
      assert user in r.picks ==> Seat(r, user);
    }
  }

  lemma PickNeverBlocks(m: Match, user: string, cardID: string, index: Option<int>)
    requires Coherent(m) && !Blocked(m)
    ensures !Blocked(Pick(m, user, cardID, index).1)
  {
    if Pick(m, user, cardID, index).0.None? {
      var r := m.draft.value;
      if user != r.first {
        assert r.picks != map[];
        var picker :| picker in r.picks;
        assert Seat(r, picker);
      }
    }
  }

  /** Exactly the overtaking reports block a round. */
  lemma BlocksIff(units: Units, catalog: Hand.Catalog, m: Match, step: Step)
    requires Coherent(m) && !Blocked(m)
    ensures Blocked(Apply(units, catalog, m, step)) <==>
              step.DoReport? && Overtakes(m, step.user, step.boss, step.tick)
  {
    match step
    case DoReport(user, boss, tick) => ReportBlocksIff(units, m, user, boss, tick);
    case DoPick(user, cardID, index) => PickNeverBlocks(m, user, cardID, index);
    case DoAdvance(target) => AdvanceCases(units, m, target);
    case DoPlay(_, _, _) =>
  }

  /** The overtaken round: the new first seat is refused every card. */
  lemma BlockedRefusesFirst(m: Match, cardID: string, index: Option<int>)
    requires Coherent(m) && Blocked(m)
    ensures Pick(m, m.draft.value.first, cardID, index).0.Some?
    ensures Pick(m, m.draft.value.first, cardID, index).1 == m
  {
  }

  /** Still blocked, with the same seats and nothing granted. */
  ghost predicate StillBlocked(m: Match, m': Match) {
    && Blocked(m) && Blocked(m') && m'.log == m.log
    && m'.draft.value.(picks := map[]) == m.draft.value.(picks := map[])
  }

  lemma BlockedThroughReport(units: Units, m: Match, user: string, boss: string, tick: int)
    requires Coherent(m) && Blocked(m)
    ensures StillBlocked(m, Report(units, m, user, boss, tick).1)
  {
  }

  lemma BlockedThroughPick(m: Match, user: string, cardID: string, index: Option<int>)
    requires Coherent(m) && Blocked(m)
    ensures StillBlocked(m, Pick(m, user, cardID, index).1)
  {
  }

  /** Nothing but a simulated tick at the deadline ends a blocked round. */
  lemma BlockedUntilDeadline(units: Units, catalog: Hand.Catalog, m: Match, step: Step)
    requires Coherent(m) && Blocked(m)
    ensures var m' := Apply(units, catalog, m, step);
            if step.DoAdvance? && step.target > m.simulated && Ticked(m, step.target).tick >= m.draft.value.deadline
            then GrantedBy(m, m') else StillBlocked(m, m')
  {
    match step
    case DoReport(user, boss, tick) => BlockedThroughReport(units, m, user, boss, tick);
    case DoPick(user, cardID, index) => BlockedThroughPick(m, user, cardID, index);
    case DoAdvance(target) =>
      AdvanceCases(units, m, target);
      if target > m.simulated && Ticked(m, target).tick >= m.draft.value.deadline {
        TimeoutGrants(units, m, Ticked(m, target), m.draft.value);
      }
    case DoPlay(_, _, _) =>
  }

  /** The late report of the earlier defeat, after the early reporter has picked. */
  function LateReport(units: Units, m: Match, early: string, late: string, boss: string, tick: nat): (m': Match) {
    var reported := Report(units, m, early, boss, tick + 1).1;
    Report(units, Pick(reported, early, "", Some(0)).1, late, boss, tick).1
  }

  /** It blocks every fresh match of two players with a card between them. */
  lemma LateReportBlocks(units: Units, m: Match, early: string, late: string, boss: string, tick: nat, card: string)
    requires Fresh(m) && early in m.players && late in m.players && early != late && TrimSpace(boss) != ""
    requires MixedPool.InSomeDeck(Decks(m), card)
    ensures Blocked(LateReport(units, m, early, late, boss, tick))
  {
    var reported := Report(units, m, early, boss, tick + 1).1;
    assert reported == OpenRound(units, m, early, TrimSpace(boss), tick + 1);
    OpenKeepsCoherent(units, m, early, TrimSpace(boss), tick + 1);
    SomeCandidate(units, m, m.rounds + 1, tick + 1, card);
    FirstPicksAlone(reported, early);
    PickKeepsCoherent(reported, early, "", Some(0));
    Overtaken(units, Pick(reported, early, "", Some(0)).1, early, late, boss, tick);
  }

  lemma FirstPicksAlone(m: Match, user: string)
    requires m.draft.Some? && !m.draft.value.granted && m.draft.value.first == user && m.draft.value.second == ""
    requires m.draft.value.picks == map[] && |m.draft.value.candidates| >= 1
    ensures var r := m.draft.value;
            Pick(m, user, "", Some(0)).1 == m.(draft := Some(r.(picks := map[user := r.candidates[0]])))
  {
    var r := m.draft.value;
    assert PickedCard(r, "", Some(0)) == (None, r.candidates[0]);
    assert r.picks[user := r.candidates[0]] == map[user := r.candidates[0]];
  }

  lemma Overtaken(units: Units, m: Match, early: string, late: string, boss: string, tick: nat)
    requires Coherent(m) && m.draft.Some? && late in m.players && late != early && TrimSpace(boss) != ""
    requires var r := m.draft.value;
             && !r.granted && r.boss == TrimSpace(boss) && r.first == early && r.second == "" && early in r.picks
             && r.firstTick == tick + 1
    ensures Blocked(Report(units, m, late, boss, tick).1)
  {
    ReportBlocksIff(units, m, late, boss, tick);
  }

  lemma SomeCandidate(units: Units, m: Match, index: nat, tick: int, card: string)
    requires MixedPool.InSomeDeck(Decks(m), card)
    ensures |DrawFor(units, m, index, tick)| >= 1
  {
    MixedPool.PoolIsMixed(Decks(m));
    assert card in MixedPool.Pool(Decks(m));
  }

  /** Such a match exists. */
  lemma BlockHappens(units: Units)
    ensures var p := Hand.Player([], [], ["card"], 0, 0.0, map[]);
            var m := Match(["a", "b"], map["a" := p, "b" := p], 0, 0, None, 0, []);
            Fresh(m) && Blocked(LateReport(units, m, "b", "a", "boss", 7))
  {
    var p := Hand.Player([], [], ["card"], 0, 0.0, map[]);
    var m := Match(["a", "b"], map["a" := p, "b" := p], 0, 0, None, 0, []);
    TrimSpaceFixed("card");
    TrimSpaceFixed("boss");
    assert m.order[0] == "a" && m.order[1] == "b" && "a" != "b";
    assert Decks(m)[0] == ["card"] && TrimSpace(Decks(m)[0][0]) == "card";
    LateReportBlocks(units, m, "b", "a", "boss", 7, "card");
  }

  // ----- the match, updated in place -----

  class DraftMatch {
    const units: Units
    const order: seq<string>
    var players: map<string, Hand.Player>
    var tick: int
    var simulated: int
    var draft: Option<Round>
    var rounds: nat
    var log: seq<Entry>

    constructor (units: Units, order: seq<string>, players: map<string, Hand.Player>)
      ensures View() == Match(order, players, 0, 0, None, 0, [])
    {
      this.units, this.order, this.players := units, order, players;
      tick, simulated, draft, rounds, log := 0, 0, None, 0, [];
    }

    ghost function View(): (m: Match)
      reads this
    {
      Match(order, players, tick, simulated, draft, rounds, log)
    }

    /** ReportBossDefeat. */
    method ReportBossDefeat(user: string, bossID: string, at: int) returns (error: Option<ReportError>)
      modifies this
      ensures (error, View()) == Report(units, old(View()), user, bossID, at)
    {
      if user !in players {
        return Some(NotAPlayer);
      }
      if at < 0 {
        return Some(NegativeTick);
      }
      var boss := TrimSpace(bossID);
      if boss == "" {
        return Some(BlankBoss);
      }
      error := None;
      if draft.None? {
        Open(user, boss, at);
      } else if draft.value.boss == boss {
        Record(user, at);
      } else if draft.value.granted {
        Open(user, boss, at);
      }
    }

    method CollectDecks() returns (decks: seq<seq<string>>)
      ensures decks == Decks(View())
    {
      decks := [];
      for i := 0 to |order|
        invariant decks == Decks(View())[..i]
      {
        decks := decks + [if order[i] in players then players[order[i]].deck else []];
      }
    }

    method Open(user: string, boss: string, at: int)
      modifies this
      ensures View() == OpenRound(units, old(View()), user, boss, at)
    {
      rounds := rounds + 1;
      var decks := CollectDecks();
      var pool := MixedPool.BuildMixedPool(decks);
      var candidates := MixedPool.DrawCandidates(pool, DrawUnits(units, rounds, at));
      assert Decks(View()) == Decks(old(View()));
      draft := Some(Round(rounds, boss, candidates, user, "", at, false, map[], false, at + CHOICE_TICKS));
    }

    method Record(user: string, at: int)
      requires draft.Some?
      modifies `draft
      ensures draft == Some(RecordDefeat(order, old(draft.value), user, at))
    {
      var round := draft.value;
      if round.granted || user == round.first || (round.second != "" && user == round.second) {
        return;
      }
      if round.second != "" {
        return;
      }
      if at < round.firstTick {
        round := round.(second := round.first);
        round := round.(first := user);
        round := round.(firstTick := at, deadline := at + CHOICE_TICKS);
      } else if at == round.firstTick {
        round := round.(tiebreak := true);
        if IndexOf(order, user) < IndexOf(order, round.first) {
          round := round.(second := round.first);
          round := round.(first := user);
        } else {
          round := round.(second := user);
        }
      } else {
        round := round.(second := user);
      }
      draft := Some(round);
    }

    /** One seat's pick, with the grant it may complete. */
    method PickCard(user: string, cardID: string, index: Option<int>) returns (error: Option<PickError>)
      modifies this
      ensures (error, View()) == Pick(old(View()), user, cardID, index)
    {
      if draft.None? || draft.value.granted {
        return Some(NoOpenRound);
      }
      var round := draft.value;
      var (bad, card) := PickedCard(round, cardID, index);
      if bad.Some? {
        return bad;
      }
      if user == round.first && |round.picks| == 0 {
        // The first seat opens the choice.
      } else if round.second != "" && user == round.second && |round.picks| == 1 {
        if round.first in round.picks && round.picks[round.first] == card {
          return Some(AlreadyTaken);
        }
      } else {
        return Some(NotDesignated);
      }
      if card !in round.candidates {
        return Some(NotACandidate);
      }
      draft := Some(round.(picks := round.picks[user := card]));
      if AllPicked(draft.value) {
        GrantDraft();
      }
      error := None;
    }

    /** grantDraftLocked: the loop over the two seats. */
    method GrantDraft()
      requires draft.Some?
      modifies this
      ensures View() == GrantRound(old(View()), old(draft.value))
    {
      var round := draft.value;
      var seats := [round.first, round.second];
      for i := 0 to 2
        invariant View() == old(View()).(players := players, log := log)
        invariant i == 0 ==> players == old(players) && log == old(log)
        invariant i >= 1 ==> players == (if i == 1 then GrantTo(old(players), round, round.first)
                                         else GrantTo(GrantTo(old(players), round, round.first), round, round.second))
        invariant i >= 1 ==> log == old(log) + EntryOf(old(View()), round, round.first)
                                    + if i == 1 then [] else EntryOf(old(View()), round, round.second)
      {
        var user := seats[i];
        if user != "" && user in round.picks && user in players {
          players := players[user := Hand.Grant(players[user], round.picks[user])];
          log := log + [Entry(round.index, user, round.picks[user])];
        }
      }
      draft := Some(round.(granted := true));
    }

    /** resolveDraftTimeoutLocked: the loop over the two seats, then the grant. */
    method ResolveDraftTimeout()
      modifies this
      ensures View() == ResolveTimeout(units, old(View()))
    {
      if draft.None? || draft.value.granted || tick < draft.value.deadline {
        return;
      }
      var round := draft.value;
      var seats := [round.first, round.second];
      for i := 0 to 2
        invariant unchanged(this)
        invariant round == (if i == 0 then draft.value
                            else if i == 1 then AutoPickFor(units, draft.value, draft.value.first)
                            else AutoPickFor(units, AutoPickFor(units, draft.value, draft.value.first),
                                             draft.value.second))
      {
        if seats[i] != "" && seats[i] !in round.picks {
          var card := AutoDraftPick(round);
          if card != "" {
            round := round.(picks := round.picks[seats[i] := card]);
          }
        }
      }
      draft := Some(round);
      GrantDraft();
    }

    /** autoDraftPick: collect the free candidates with their numbers and keep the least. */
    method AutoDraftPick(round: Round) returns (card: string)
      ensures card == AutoPick(units, round)
    {
      var rest := Remaining(round.candidates, round.picks.Values);
      if rest == [] {
        return "";
      }
      ghost var score := (i: nat) => units(round.deadline, "draft_auto", i);
      var best := 0;
      for k := 1 to |rest|
        invariant best == Least(score, rest, k)
      {
        var here, there := units(round.deadline, "draft_auto", k), units(round.deadline, "draft_auto", best);
        if here < there || (here == there && Less(rest[k], rest[best])) {
          best := k;
        }
      }
      card := rest[best];
    }

    /** The tick of an input and the simulated advance with its deadline test. */
    method AdvanceTo(target: int)
      modifies this
      ensures View() == Advance(units, old(View()), target)
    {
      if target > tick {
        tick := target;
      }
      if target > simulated {
        simulated := target;
        ResolveDraftTimeout();
      }
    }

    /** A card request of one player. */
    method PlayCardOf(catalog: Hand.Catalog, user: string, slot: int, at: int)
      modifies this
      ensures View() == PlayCard(catalog, old(View()), user, slot, at)
    {
      if user in players {
        var (_, player) := Hand.Play(catalog, players[user], slot, at);
        players := players[user := player];
      }
    }
  }
}
