/** One game session on the shared device (`App` in app.js): the roster, the
    round pointer, the winner picked for the round being scored, and what was
    last written to the browser's storage. */
module GameSession {
  import opened Common
  import opened Sorting

  const MinPlayers := 3
  const MaxPlayers := 5
  /** The game ends once round 5 has been scored. */
  const MaxRounds := 5
  /** The round winner's score change, whatever the others entered. */
  const WinnerDelta := -20
  const Placeholder := "Mission à définir"

  /** One entry of a player's `roundScores` history. `mission` is absent for a
      round outside the mission table: settling reads the table without the
      fallback label that announcing a round uses. */
  datatype RoundScore = RoundScore(round: int, score: int, mission: Option<string>)

  datatype Player = Player(id: int, name: string, score: int, roundScores: seq<RoundScore>)

  /** The object handed to `Storage.saveGameState`. */
  datatype Snapshot = Snapshot(
    players: seq<Player>,
    round: int,
    mission: Option<string>,
    inProgress: bool,
    roundStarted: Option<bool>)

  /** The screens the methods below switch to. */
  datatype Screen = Home | GameArea | RoundScreen | CardCount | ScoreboardScreen | FinalScoreScreen

  /** What `validateScores` did: settled the round (and whether that ended the
      game), stopped at the first loser without a valid entry, or failed because
      no winner had been selected. */
  datatype Settlement = Settled(gameOver: bool) | InvalidPoints(name: string) | NoWinnerSelected

  /** The `missions` table, keyed by round number. */
  function Mission(round: int): (m: Option<string>)
    ensures m.Some? <==> 1 <= round <= MaxRounds
  {
    if round == 1 then Some("Deux brelans")
    else if round == 2 then Some("Une suite + Un brelan")
    else if round == 3 then Some("Deux suites")
    else if round == 4 then Some("Trois brelans")
    else if round == 5 then Some("Deux brelans et une suite (on jète pas à la fin)")
    else None
  }

  /** The label `startRound` announces: the table's entry, or the placeholder. */
  function MissionLabel(round: int): (text: string)
    ensures 1 <= round <= MaxRounds ==> Mission(round) == Some(text)
    ensures !(1 <= round <= MaxRounds) ==> text == Placeholder
  {
    Mission(round).GetOr(Placeholder)
  }

  // ---------------------------------------------------------------------------
  // The score book

  /** Sum of the deltas recorded in a history. */
  function Total(h: seq<RoundScore>): int {
    if h == [] then 0 else h[0].score + Total(h[1..])
  }

  lemma {:induction false} TotalAppend(h: seq<RoundScore>, e: RoundScore)
    ensures Total(h + [e]) == Total(h) + e.score
  {
    if h != [] {
      assert (h + [e])[1..] == h[1..] + [e];
      TotalAppend(h[1..], e);
    }
  }

  /** A player's score is the sum of its round history. */
  ghost predicate Balanced(p: Player) {
    p.score == Total(p.roundScores)
  }

  /** Ids are 1..N in roster order. */
  ghost predicate DenseIds(ps: seq<Player>) {
    forall i :: 0 <= i < |ps| ==> ps[i].id == i + 1
  }

  ghost predicate RosterCoherent(ps: seq<Player>) {
    DenseIds(ps) && forall i :: 0 <= i < |ps| ==> Balanced(ps[i])
  }

  /** The roster `startGame` builds: one fresh player per name, in input order. */
  function NewRoster(names: seq<string>): (ps: seq<Player>)
    ensures |ps| == |names|
    ensures forall i :: 0 <= i < |ps| ==> ps[i].name == names[i] && ps[i].score == 0 && ps[i].roundScores == []
    ensures RosterCoherent(ps)
  {
    seq(|names|, i requires 0 <= i < |names| => Player(i + 1, names[i], 0, []))
  }

  /** The id renumbering after a deletion: everything but the id is kept. */
  function Renumber(ps: seq<Player>): (r: seq<Player>)
    ensures |r| == |ps| && DenseIds(r)
    ensures forall i :: 0 <= i < |r| ==> r[i] == ps[i].(id := i + 1)
  {
    seq(|ps|, i requires 0 <= i < |ps| => ps[i].(id := i + 1))
  }

  /** The roster without the player at `index`, renumbered. */
  function RemovePlayer(ps: seq<Player>, index: nat): (r: seq<Player>)
    requires index < |ps|
    ensures |r| == |ps| - 1 && DenseIds(r)
    ensures forall i :: 0 <= i < index ==> r[i] == ps[i].(id := i + 1)
    ensures forall i :: index <= i < |r| ==> r[i] == ps[i + 1].(id := i + 1)
    ensures RosterCoherent(ps) ==> RosterCoherent(r)
  {
    var rest := ps[..index] + ps[index + 1..];
    assert forall i :: 0 <= i < |rest| ==> rest[i] == if i < index then ps[i] else ps[i + 1];
    Renumber(rest)
  }

  /** The player `addPlayer` pushes: the next id, a zero score, no history. */
  function AppendPlayer(ps: seq<Player>, name: string): (r: seq<Player>)
    ensures |r| == |ps| + 1 && r[..|ps|] == ps
    ensures r[|ps|].id == |ps| + 1 && r[|ps|].name == name && r[|ps|].score == 0 && r[|ps|].roundScores == []
    ensures RosterCoherent(ps) ==> RosterCoherent(r)
  {
    ps + [Player(|ps| + 1, name, 0, [])]
  }

  /** The players other than the winner, in roster order. */
  function Losers(ps: seq<Player>, winnerId: int): (ls: seq<Player>)
    ensures forall p :: p in ls <==> p in ps && p.id != winnerId
  {
    if ps == [] then []
    else (if ps[0].id != winnerId then [ps[0]] else []) + Losers(ps[1..], winnerId)
  }

  /** Filtering distributes over concatenation. With `LosersSingle`, this fixes
      the order and the multiplicity of the losers. */
  lemma {:induction false} LosersAppend(a: seq<Player>, b: seq<Player>, winnerId: int)
    ensures Losers(a + b, winnerId) == Losers(a, winnerId) + Losers(b, winnerId)
  {
    if a == [] {
      assert a + b == b;
    } else {
      var ab := a + b;
      assert ab[0] == a[0] && ab[1..] == a[1..] + b;
      LosersAppend(a[1..], b, winnerId);
      var x := if a[0].id != winnerId then [a[0]] else [];
      calc {
        Losers(ab, winnerId);
        x + Losers(a[1..] + b, winnerId);
        x + (Losers(a[1..], winnerId) + Losers(b, winnerId));
        (x + Losers(a[1..], winnerId)) + Losers(b, winnerId);
      }
    }
  }

  /** A single player is a loser exactly when it is not the winner. */
  lemma LosersSingle(p: Player, winnerId: int)
    ensures Losers([p], winnerId) == if p.id != winnerId then [p] else []
  {
    assert [p][1..] == [];
  }

  /** A loser's points field is filled with an integer of at least 1. A missing
      key stands for a field that is absent or empty. */
  predicate ValidEntry(entries: map<int, Option<int>>, id: int) {
    id in entries && entries[id].Some? && entries[id].value > 0
  }

  /** The first loser, in roster order, whose entry is rejected. */
  function FirstInvalid(ls: seq<Player>, entries: map<int, Option<int>>): (r: Option<Player>)
    ensures r.None? <==> forall p :: p in ls ==> ValidEntry(entries, p.id)
    ensures r.Some? ==> r.value in ls && !ValidEntry(entries, r.value.id)
    ensures r.Some? ==>
      exists k :: 0 <= k < |ls| && ls[k] == r.value && forall j :: 0 <= j < k ==> ValidEntry(entries, ls[j].id)
  {
    if ls == [] then None
    else if !ValidEntry(entries, ls[0].id) then Some(ls[0])
    else FirstInvalid(ls[1..], entries)
  }

  ghost predicate AllLosersEntered(ps: seq<Player>, winnerId: int, entries: map<int, Option<int>>) {
    forall i :: 0 <= i < |ps| && ps[i].id != winnerId ==> ValidEntry(entries, ps[i].id)
  }

  /** The check that `validateScores` runs first passes exactly when every
      non-winner has a valid entry. */
  lemma FirstInvalidNoneIff(ps: seq<Player>, winnerId: int, entries: map<int, Option<int>>)
    ensures FirstInvalid(Losers(ps, winnerId), entries).None? <==> AllLosersEntered(ps, winnerId, entries)
  {
    if FirstInvalid(Losers(ps, winnerId), entries).None? {
      forall i | 0 <= i < |ps| && ps[i].id != winnerId ensures ValidEntry(entries, ps[i].id) {
        assert ps[i] in Losers(ps, winnerId);
      }
    }
  }

  /** A player's score change for the round: -20 for the winner, the entered
      (positive) points for everyone else. */
  function Delta(p: Player, winnerId: int, entries: map<int, Option<int>>): (d: int)
    requires p.id == winnerId || ValidEntry(entries, p.id)
    ensures p.id == winnerId ==> d == WinnerDelta
    ensures p.id != winnerId ==> d > 0 && entries[p.id] == Some(d)
  {
    if p.id == winnerId then WinnerDelta else entries[p.id].value
  }

  /** One player's record after the round: the delta is added to the score and
      appended to the history. */
  function SettlePlayer(p: Player, winnerId: int, entries: map<int, Option<int>>, round: int): (r: Player)
    requires p.id == winnerId || ValidEntry(entries, p.id)
    ensures r.id == p.id && r.name == p.name
    ensures r.score == p.score + Delta(p, winnerId, entries)
    ensures r.roundScores == p.roundScores + [RoundScore(round, Delta(p, winnerId, entries), Mission(round))]
    ensures Balanced(p) ==> Balanced(r)
  {
    var d := Delta(p, winnerId, entries);
    TotalAppend(p.roundScores, RoundScore(round, d, Mission(round)));
    p.(score := p.score + d, roundScores := p.roundScores + [RoundScore(round, d, Mission(round))])
  }

  /** The roster after a settled round; order and ids are kept. */
  function SettleRound(ps: seq<Player>, winnerId: int, entries: map<int, Option<int>>, round: int): (r: seq<Player>)
    requires AllLosersEntered(ps, winnerId, entries)
    ensures |r| == |ps|
    ensures forall i :: 0 <= i < |r| ==> r[i] == SettlePlayer(ps[i], winnerId, entries, round)
    ensures DenseIds(ps) ==> DenseIds(r)
    ensures RosterCoherent(ps) ==> RosterCoherent(r)
  {
    seq(|ps|, i requires 0 <= i < |ps| => SettlePlayer(ps[i], winnerId, entries, round))
  }

  // ---------------------------------------------------------------------------
  // The scoreboard

  function ScoreOf(p: Player): int { p.score }

  /** The scoreboard order: a sorted copy of the roster, lowest score first,
      ties kept in roster order. */
  function Standings(ps: seq<Player>): (r: seq<Player>)
    ensures multiset(r) == multiset(ps)
    ensures forall i, j :: 0 <= i < j < |r| ==> r[i].score <= r[j].score
    ensures forall k :: WithKey(r, ScoreOf, k) == WithKey(ps, ScoreOf, k)
  {
    SortBySorted(ps, ScoreOf);
    forall k ensures WithKey(SortBy(ps, ScoreOf), ScoreOf, k) == WithKey(ps, ScoreOf, k) {
      SortByStable(ps, ScoreOf, k);
    }
    SortBy(ps, ScoreOf)
  }

  /** Three players over five rounds: Alice wins round 1 against 12 and 8
      points, then Bob wins the next four while the other two enter 10 each. */
  lemma FiveRoundGame()
    ensures
      var p1 := SettleRound(NewRoster(["Alice", "Bob", "Cara"]), 1, map[2 := Some(12), 3 := Some(8)], 1);
      var bob := map[1 := Some(10), 3 := Some(10)];
      var p5 := SettleRound(SettleRound(SettleRound(SettleRound(p1, 2, bob, 2), 2, bob, 3), 2, bob, 4), 2, bob, 5);
      && p1[0].score == -20 && p1[1].score == 12 && p1[2].score == 8
      && p5[0].score == 20 && p5[1].score == -68 && p5[2].score == 48
  {
    var p0 := NewRoster(["Alice", "Bob", "Cara"]);
    var p1 := SettleRound(p0, 1, map[2 := Some(12), 3 := Some(8)], 1);
    assert p1[0].score == -20 && p1[1].score == 12 && p1[2].score == 8;
    var bob := map[1 := Some(10), 3 := Some(10)];
    var p2 := SettleRound(p1, 2, bob, 2);
    assert p2[0].score == -10 && p2[1].score == -8 && p2[2].score == 18;
    var p3 := SettleRound(p2, 2, bob, 3);
    assert p3[0].score == 0 && p3[1].score == -28 && p3[2].score == 28;
    var p4 := SettleRound(p3, 2, bob, 4);
    assert p4[0].score == 10 && p4[1].score == -48 && p4[2].score == 38;
  }

  // ---------------------------------------------------------------------------
  // The session object

  class App {
    var players: seq<Player>
    var currentRound: int
    /** Set by `selectWinner`; never cleared afterwards. */
    var currentWinner: Option<Player>
    var currentScreen: Screen
    /** What `Storage.saveGameState` last received (`None` once cleared). */
    ghost var savedSnapshot: Option<Snapshot>
    /** The remembered names used to prefill the next session. */
    ghost var lastPlayers: Option<seq<string>>

    /** Ids are dense, scores match histories, and the round pointer is at least 1. */
    ghost predicate Coherent()
      reads this
    {
      RosterCoherent(players) && currentRound >= 1
    }

    /** The stored snapshot, if any, holds the roster in memory. */
    ghost predicate Mirrored()
      reads this
    {
      savedSnapshot.Some? ==> savedSnapshot.value.players == players
    }

    /** The object literal at page load; storage holds whatever an earlier visit left. */
    constructor (stored: Option<Snapshot>, remembered: Option<seq<string>>)
      ensures players == [] && currentRound == 1 && currentWinner == None && currentScreen == Home
      ensures savedSnapshot == stored && lastPlayers == remembered
      ensures Coherent()
    {
      players := [];
      currentRound := 1;
      currentWinner := None;
      currentScreen := Home;
      savedSnapshot := stored;
      lastPlayers := remembered;
    }

    /** `startGame`: builds the roster, remembers the names and saves round 1.
        The in-memory round pointer is left as it was. */
    method StartGame(names: seq<string>)
      modifies this`players, this`lastPlayers, this`savedSnapshot, this`currentScreen
      ensures players == NewRoster(names)
      ensures lastPlayers == Some(names)
      ensures savedSnapshot == Some(Snapshot(players, 1, None, true, None))
      ensures currentScreen == GameArea
      ensures old(currentRound) >= 1 ==> Coherent()
      ensures Mirrored()
    {
      players := NewRoster(names);
      lastPlayers := Some(names);
      savedSnapshot := Some(Snapshot(players, 1, None, true, None));
      currentScreen := GameArea;
    }

    /** `startRound`: announces the mission of the current round and saves the
        session with `roundStarted` set. */
    method StartRound() returns (mission: string)
      modifies this`savedSnapshot, this`currentScreen
      ensures mission == MissionLabel(currentRound)
      ensures savedSnapshot == Some(Snapshot(players, currentRound, Some(mission), true, Some(true)))
      ensures currentScreen == RoundScreen
      ensures Mirrored()
    {
      mission := MissionLabel(currentRound);
      savedSnapshot := Some(Snapshot(players, currentRound, Some(mission), true, Some(true)));
      currentScreen := RoundScreen;
    }

    /** `selectWinner`: remembers the round's winner and opens the points entry. */
    method SelectWinner(winner: Player)
      modifies this`currentWinner, this`currentScreen
      ensures currentWinner == Some(winner)
      ensures currentScreen == CardCount
    {
      currentWinner := Some(winner);
      currentScreen := CardCount;
    }

    /** `validateScores`: rejects the round at the first loser without a valid
        entry, changing nothing; otherwise settles it, advances the round,
        saves the session with `roundStarted` cleared, and shows the final
        results once round 5 is done. The input map replaces the points fields. */
    method ValidateScores(entries: map<int, Option<int>>) returns (outcome: Settlement)
      modifies this`players, this`currentRound, this`savedSnapshot, this`currentScreen
      ensures outcome.NoWinnerSelected? <==> currentWinner.None?
      ensures outcome.InvalidPoints? <==>
        currentWinner.Some? && FirstInvalid(Losers(old(players), currentWinner.value.id), entries).Some?
      ensures outcome.InvalidPoints? ==>
        outcome.name == FirstInvalid(Losers(old(players), currentWinner.value.id), entries).value.name
      ensures !outcome.Settled? ==>
        players == old(players) && currentRound == old(currentRound) &&
        savedSnapshot == old(savedSnapshot) && currentScreen == old(currentScreen)
      ensures outcome.Settled? ==>
        && currentWinner.Some?
        && AllLosersEntered(old(players), currentWinner.value.id, entries)
        && players == SettleRound(old(players), currentWinner.value.id, entries, old(currentRound))
        && currentRound == old(currentRound) + 1
        && savedSnapshot == Some(Snapshot(players, currentRound, None, true, Some(false)))
        && outcome.gameOver == (currentRound > MaxRounds)
        && currentScreen == (if outcome.gameOver then FinalScoreScreen else ScoreboardScreen)
      ensures old(Coherent()) ==> Coherent()
      ensures old(Mirrored()) ==> Mirrored()
    {
      if currentWinner.None? {
        return NoWinnerSelected;
      }
      var winnerId := currentWinner.value.id;
      var losers := Losers(players, winnerId);
      var i := 0;
      while i < |losers|
        invariant 0 <= i <= |losers|
        invariant FirstInvalid(losers, entries) == FirstInvalid(losers[i..], entries)
      {
        if !ValidEntry(entries, losers[i].id) {
          return InvalidPoints(losers[i].name);
        }
        assert losers[i..][1..] == losers[i + 1..];
        i := i + 1;
      }
      FirstInvalidNoneIff(players, winnerId, entries);
      var roundNumber := currentRound;
      players := SettleRound(players, winnerId, entries, roundNumber);
      currentRound := currentRound + 1;
      savedSnapshot := Some(Snapshot(players, currentRound, None, true, Some(false)));
      var over := currentRound > MaxRounds;
      currentScreen := if over then FinalScoreScreen else ScoreboardScreen;
      outcome := Settled(over);
    }

    /** `addPlayer`: refused at five players; otherwise appends the trimmed name
        given at the prompt (`None` when it was cancelled), unless it is blank,
        and saves the roster with round 1. */
    method AddPlayer(entered: Option<string>) returns (added: bool)
      modifies this`players, this`savedSnapshot
      ensures added <==> |old(players)| < MaxPlayers && entered.Some? && Trim(entered.value) != []
      ensures added ==> players == AppendPlayer(old(players), Trim(entered.value))
      ensures added ==> savedSnapshot == Some(Snapshot(players, 1, None, true, None))
      ensures !added ==> players == old(players) && savedSnapshot == old(savedSnapshot)
      ensures old(Coherent()) ==> Coherent()
      ensures old(Mirrored()) ==> Mirrored()
    {
      added := false;
      if |players| >= MaxPlayers {
        return;
      }
      if entered.Some? && Trim(entered.value) != [] {
        players := AppendPlayer(players, Trim(entered.value));
        savedSnapshot := Some(Snapshot(players, 1, None, true, None));
        added := true;
      }
    }

    /** `deletePlayer`: refused at three players or fewer, and when the index
        names no player (the source throws there) or the deletion is not
        confirmed; otherwise removes that player, renumbers the rest and saves
        the roster with round 1. */
    method DeletePlayer(index: int, confirmed: bool) returns (deleted: bool)
      modifies this`players, this`savedSnapshot
      ensures deleted <==> |old(players)| > MinPlayers && 0 <= index < |old(players)| && confirmed
      ensures deleted ==> players == RemovePlayer(old(players), index)
      ensures deleted ==> savedSnapshot == Some(Snapshot(players, 1, None, true, None))
      ensures !deleted ==> players == old(players) && savedSnapshot == old(savedSnapshot)
      ensures old(Coherent()) ==> Coherent()
      ensures old(Mirrored()) ==> Mirrored()
    {
      deleted := false;
      if |players| <= MinPlayers || !(0 <= index < |players|) {
        return;
      }
      if confirmed {
        players := RemovePlayer(players, index);
        savedSnapshot := Some(Snapshot(players, 1, None, true, None));
        deleted := true;
      }
    }

    /** `restoreGame`: takes the stored roster, and the stored round, or 1 when
        the stored round is 0. */
    method RestoreGame(state: Snapshot)
      modifies this`players, this`currentRound, this`currentScreen
      ensures players == state.players
      ensures currentRound == (if state.round == 0 then 1 else state.round)
      ensures currentScreen == GameArea
      ensures RosterCoherent(state.players) && state.round >= 0 ==> Coherent()
      ensures old(savedSnapshot) == Some(state) ==> Mirrored()
    {
      players := state.players;
      currentRound := if state.round == 0 then 1 else state.round;
      currentScreen := GameArea;
    }

    /** `endGame`: when confirmed, empties the roster, resets the round to 1 and
        clears the stored session; the remembered names are written back as
        they were. */
    method EndGame(confirmed: bool)
      modifies this`players, this`currentRound, this`savedSnapshot, this`currentScreen
      ensures confirmed ==> players == [] && currentRound == 1 && savedSnapshot == None && currentScreen == Home
      ensures !confirmed ==>
        players == old(players) && currentRound == old(currentRound) &&
        savedSnapshot == old(savedSnapshot) && currentScreen == old(currentScreen)
      ensures confirmed ==> Coherent()
      ensures old(Mirrored()) ==> Mirrored()
    {
      if confirmed {
        players := [];
        currentRound := 1;
        savedSnapshot := None;
        currentScreen := Home;
      }
    }
  }
}
