/** Game history and statistics (gist.js): a `{games, stats}` document, loaded
    by `getGistData` and written back by `saveGistData`. `addGame` returns the
    document it writes; `getStats` reads a loaded document. */
module GameHistory {
  import opened Common
  import opened Sorting

  /** One round of a recorded game; `scores` holds the `score` of each entry. */
  datatype RoundRecord = RoundRecord(number: int, mission: Option<string>, scores: Option<seq<int>>)

  /** The game the client posts; any field may be missing. Only the length of
      `players` is used here. */
  datatype GameData = GameData(
    id: Option<int>,
    date: Option<string>,
    players: Option<seq<string>>,
    winner: Option<string>,
    winnerScore: Option<int>,
    rounds: Option<seq<RoundRecord>>)

  datatype Game = Game(
    id: int,
    date: string,
    players: Option<seq<string>>,
    winner: Option<string>,
    winnerScore: Option<int>,
    rounds: Option<seq<RoundRecord>>)

  datatype DocStats = DocStats(totalGames: Option<int>, lastUpdate: Option<string>)

  datatype Document = Document(games: seq<Game>, stats: Option<DocStats>)

  /** What `addGame` hands to `saveGistData`, and what it answers. */
  datatype AddOutcome = AddOutcome(written: Document, result: Option<Game>)

  datatype Tally = Tally(name: string, wins: int)
  datatype BestScore = BestScore(score: int, player: string, date: string)
  datatype Bucket = Bucket(mission: Option<string>, scores: seq<int>)

  /** What `getStats` computes, less the two averages. */
  datatype Summary = Summary(
    totalGames: nat,
    totalPlayers: nat,
    bestScores: seq<BestScore>,
    topWinners: seq<Tally>,
    scoresByRound: map<int, Bucket>,
    lastUpdate: Option<string>)

  const TopWinnersShown := 10
  const BestScoresShown := 3

  // ---------------------------------------------------------------------------
  // addGame

  /** The game record stored: a generated id and date, each replaced by the
      posted one when the client sent it, and the posted fields. */
  function NewGame(data: GameData, nowMs: int, nowIso: string): Game {
    Game(data.id.GetOr(nowMs), data.date.GetOr(nowIso), data.players, data.winner, data.winnerScore, data.rounds)
  }

  /** `stats.totalGames` agrees with the number of games. */
  predicate InSync(doc: Document) {
    doc.stats.Some? && doc.stats.value.totalGames == Some(|doc.games|)
  }

  /** `addGame`: appends the game, brings the count up to date and returns the
      game when the write succeeds (`saved`), nothing otherwise. */
  function AddGame(doc: Document, data: GameData, nowMs: int, nowIso: string, saved: bool): (r: AddOutcome)
    ensures |r.written.games| == |doc.games| + 1 && r.written.games[..|doc.games|] == doc.games
    ensures r.written.games[|doc.games|] == NewGame(data, nowMs, nowIso)
    ensures InSync(r.written) && r.written.stats.value.lastUpdate == Some(nowIso)
    ensures r.result == if saved then Some(r.written.games[|doc.games|]) else None
  {
    var game := NewGame(data, nowMs, nowIso);
    var games := doc.games + [game];
    AddOutcome(Document(games, Some(DocStats(Some(|games|), Some(nowIso)))), if saved then Some(game) else None)
  }

  // ---------------------------------------------------------------------------
  // getStats: player count

  function PlayerCount(g: Game): nat {
    match g.players
    case None => 0
    case Some(ps) => |ps|
  }

  /** The sum over the games of their number of players; a game without a
      player list counts zero. */
  function TotalPlayers(gs: seq<Game>): nat {
    if gs == [] then 0 else PlayerCount(gs[0]) + TotalPlayers(gs[1..])
  }

  lemma {:induction false} TotalPlayersAppend(a: seq<Game>, b: seq<Game>)
    ensures TotalPlayers(a + b) == TotalPlayers(a) + TotalPlayers(b)
  {
    if a == [] {
      assert a + b == b;
    } else {
      assert (a + b)[1..] == a[1..] + b;
      TotalPlayersAppend(a[1..], b);
    }
  }

  /** Recording one more game adds exactly its player count. */
  lemma AddGameCountsPlayers(doc: Document, data: GameData, nowMs: int, nowIso: string, saved: bool)
    ensures TotalPlayers(AddGame(doc, data, nowMs, nowIso, saved).written.games) ==
            TotalPlayers(doc.games) + PlayerCount(NewGame(data, nowMs, nowIso))
  {
    var g := NewGame(data, nowMs, nowIso);
    TotalPlayersAppend(doc.games, [g]);
    assert [g][1..] == [];
  }

  // ---------------------------------------------------------------------------
  // getStats: top winners

  /** A game counts as won when its winner is present and not the empty string. */
  predicate HasWinner(g: Game) {
    g.winner.Some? && g.winner.value != ""
  }

  function WinsOf(g: Game, name: string): nat {
    if HasWinner(g) && g.winner.value == name then 1 else 0
  }

  /** The number of games won by `name`. */
  function WinCount(gs: seq<Game>, name: string): nat {
    if gs == [] then 0 else WinCount(gs[..|gs| - 1], name) + WinsOf(gs[|gs| - 1], name)
  }

  /** The names that have won, in the order the win counts list them: by first win. */
  function WinnerOrder(gs: seq<Game>): (r: seq<string>)
    ensures forall n :: n in r <==> WinCount(gs, n) > 0
    ensures forall i, j :: 0 <= i < j < |r| ==> r[i] != r[j]
  {
    if gs == [] then []
    else
      var prefix := WinnerOrder(gs[..|gs| - 1]);
      var g := gs[|gs| - 1];
      if HasWinner(g) && WinCount(gs[..|gs| - 1], g.winner.value) == 0 then prefix + [g.winner.value] else prefix
  }

  /** One tally per winner, in the order of `WinnerOrder`, with its number of wins. */
  function WinTallies(gs: seq<Game>): (r: seq<Tally>)
    ensures forall i :: 0 <= i < |r| ==> r[i].wins == WinCount(gs, r[i].name) && r[i].wins > 0
    ensures forall n :: WinCount(gs, n) > 0 ==> Tally(n, WinCount(gs, n)) in r
    ensures forall i, j :: 0 <= i < j < |r| ==> r[i].name != r[j].name
  {
    var order := WinnerOrder(gs);
    var r := seq(|order|, i requires 0 <= i < |order| => Tally(order[i], WinCount(gs, order[i])));
    forall n | WinCount(gs, n) > 0 ensures Tally(n, WinCount(gs, n)) in r {
      var i :| 0 <= i < |order| && order[i] == n;
      assert r[i] == Tally(n, WinCount(gs, n));
    }
    r
  }

  function NegWins(t: Tally): int { -t.wins }

  /** The tallies sorted by decreasing wins, ties in first-win order, cut to ten. */
  function TopWinners(gs: seq<Game>): seq<Tally> {
    Take(SortBy(WinTallies(gs), NegWins), TopWinnersShown)
  }

  /** Every listed name carries its true number of wins, and there are at most ten. */
  lemma TopWinnersCounts(gs: seq<Game>)
    ensures |TopWinners(gs)| <= TopWinnersShown
    ensures forall t :: t in TopWinners(gs) ==> t.wins == WinCount(gs, t.name) && t.wins > 0
  {
    var all := WinTallies(gs);
    var sorted := SortBy(all, NegWins);
    var r := TopWinners(gs);
    assert r == sorted[..|r|];
    forall t | t in r ensures t.wins == WinCount(gs, t.name) && t.wins > 0 {
      assert t in sorted;
      assert t in multiset(sorted);
      assert t in all;
    }
  }

  /** The list runs from most to fewest wins. */
  lemma TopWinnersOrdered(gs: seq<Game>)
    ensures forall i, j :: 0 <= i < j < |TopWinners(gs)| ==> TopWinners(gs)[i].wins >= TopWinners(gs)[j].wins
  {
    var sorted := SortBy(WinTallies(gs), NegWins);
    SortBySorted(WinTallies(gs), NegWins);
    assert TopWinners(gs) == sorted[..|TopWinners(gs)|];
  }

  /** A winner left out of the list has no more wins than anyone listed, and
      that happens only when ten are listed. */
  lemma TopWinnersComplete(gs: seq<Game>, n: string)
    requires WinCount(gs, n) > 0
    requires forall t :: t in TopWinners(gs) ==> t.name != n
    ensures |TopWinners(gs)| == TopWinnersShown
    ensures forall t :: t in TopWinners(gs) ==> t.wins >= WinCount(gs, n)
  {
    var all := WinTallies(gs);
    var sorted := SortBy(all, NegWins);
    var r := TopWinners(gs);
    SortBySorted(all, NegWins);
    var x := Tally(n, WinCount(gs, n));
    assert x in multiset(sorted);
    assert x !in multiset(r);
    PrefixIsSmallest(sorted, NegWins, |r|, x);
    assert r == sorted[..|r|];
  }

  // ---------------------------------------------------------------------------
  // getStats: best scores

  /** A game enters the best scores when it has a winner and a winning score. */
  predicate HasWinningScore(g: Game) {
    g.winnerScore.Some? && HasWinner(g)
  }

  function EntryOf(g: Game): BestScore
    requires HasWinningScore(g)
  {
    BestScore(g.winnerScore.value, g.winner.value, g.date)
  }

  /** `allScores`: one entry per game with a winner and a winning score, in game order. */
  function ScoreEntries(gs: seq<Game>): (r: seq<BestScore>)
    ensures |r| <= |gs|
    ensures forall e :: e in r ==> exists k :: 0 <= k < |gs| && HasWinningScore(gs[k]) && e == EntryOf(gs[k])
    ensures forall k :: 0 <= k < |gs| && HasWinningScore(gs[k]) ==> EntryOf(gs[k]) in r
  {
    if gs == [] then []
    else
      var init := gs[..|gs| - 1];
      var g := gs[|gs| - 1];
      var prefix := ScoreEntries(init);
      assert forall k :: 0 <= k < |init| ==> init[k] == gs[k];
      if HasWinningScore(g) then prefix + [EntryOf(g)] else prefix
  }

  /** Collecting entries game after game: the entries of a joined game list are
      those of each part in turn, and a single game gives one entry exactly
      when it has a winner and a winning score. So the entries follow game
      order, one per qualifying game. */
  lemma {:induction false} ScoreEntriesAppend(a: seq<Game>, b: seq<Game>)
    ensures ScoreEntries(a + b) == ScoreEntries(a) + ScoreEntries(b)
  {
    if b == [] {
      assert a + b == a;
    } else {
      var init := b[..|b| - 1];
      var last := b[|b| - 1];
      assert b == init + [last];
      assert a + b == (a + init) + [last];
      ScoreEntriesAppend(a, init);
      ScoreEntriesSnoc(a + init, last);
      ScoreEntriesSnoc(init, last);
    }
  }

  /** One more game adds its entry, if any, at the end. */
  lemma ScoreEntriesSnoc(gs: seq<Game>, g: Game)
    ensures ScoreEntries(gs + [g]) == ScoreEntries(gs) + (if HasWinningScore(g) then [EntryOf(g)] else [])
  {
    assert (gs + [g])[..|gs|] == gs;
  }

  lemma ScoreEntriesSingle(g: Game)
    ensures ScoreEntries([g]) == if HasWinningScore(g) then [EntryOf(g)] else []
  {
    assert [g][..0] == [];
  }

  function ScoreKey(e: BestScore): int { e.score }

  /** The score entries sorted by increasing score, ties in game order, cut to three. */
  function BestScores(gs: seq<Game>): seq<BestScore> {
    Take(SortBy(ScoreEntries(gs), ScoreKey), BestScoresShown)
  }

  /** At most three entries, lowest first, a prefix of the full ascending
      list, in which equal scores keep game order. */
  lemma BestScoresOrdered(gs: seq<Game>)
    ensures |BestScores(gs)| <= BestScoresShown
    ensures BestScores(gs) == SortBy(ScoreEntries(gs), ScoreKey)[..|BestScores(gs)|]
    ensures forall i, j :: 0 <= i < j < |BestScores(gs)| ==> BestScores(gs)[i].score <= BestScores(gs)[j].score
    ensures forall k :: WithKey(SortBy(ScoreEntries(gs), ScoreKey), ScoreKey, k) == WithKey(ScoreEntries(gs), ScoreKey, k)
  {
    var all := ScoreEntries(gs);
    SortBySorted(all, ScoreKey);
    forall k ensures WithKey(SortBy(all, ScoreKey), ScoreKey, k) == WithKey(all, ScoreKey, k) {
      SortByStable(all, ScoreKey, k);
    }
  }

  /** An entry left out of the three scores no lower than any entry kept. */
  lemma BestScoresLowest(gs: seq<Game>, e: BestScore)
    requires e in multiset(ScoreEntries(gs)) - multiset(BestScores(gs))
    ensures forall b :: b in BestScores(gs) ==> b.score <= e.score
  {
    var all := ScoreEntries(gs);
    var sorted := SortBy(all, ScoreKey);
    var r := BestScores(gs);
    SortBySorted(all, ScoreKey);
    PrefixIsSmallest(sorted, ScoreKey, |r|, e);
    assert r == sorted[..|r|];
  }

  // ---------------------------------------------------------------------------
  // getStats: per-round buckets

  function RoundsOf(g: Game): seq<RoundRecord> { g.rounds.GetOr([]) }

  /** Every round of every game, in order. */
  function AllRounds(gs: seq<Game>): seq<RoundRecord> {
    if gs == [] then [] else AllRounds(gs[..|gs| - 1]) + RoundsOf(gs[|gs| - 1])
  }

  function ScoresOf(r: RoundRecord): seq<int> { r.scores.GetOr([]) }

  /** One round's step of the `scoresByRound` loop: a round number's bucket is
      made at its first occurrence, with that round's mission, and each round
      with the number adds its scores. */
  function AddRound(m: map<int, Bucket>, r: RoundRecord): map<int, Bucket> {
    if r.number in m then m[r.number := Bucket(m[r.number].mission, m[r.number].scores + ScoresOf(r))]
    else m[r.number := Bucket(r.mission, ScoresOf(r))]
  }

  /** `scoresByRound` after the given rounds. */
  function Bucketed(rs: seq<RoundRecord>): map<int, Bucket> {
    if rs == [] then map[] else AddRound(Bucketed(rs[..|rs| - 1]), rs[|rs| - 1])
  }

  lemma BucketedAppend(rs: seq<RoundRecord>, r: RoundRecord)
    ensures Bucketed(rs + [r]) == AddRound(Bucketed(rs), r)
  {
    assert (rs + [r])[..|rs|] == rs;
  }

  lemma AllRoundsAppend(gs: seq<Game>, i: nat)
    requires i < |gs|
    ensures AllRounds(gs[..i + 1]) == AllRounds(gs[..i]) + RoundsOf(gs[i])
  {
    assert gs[..i + 1][..i] == gs[..i];
  }

  function Buckets(gs: seq<Game>): map<int, Bucket> {
    Bucketed(AllRounds(gs))
  }

  /** Reference definitions, read front to back: the first round with a given
      number, and every score of rounds with that number. */
  function FirstRound(rs: seq<RoundRecord>, n: int): Option<RoundRecord> {
    if rs == [] then None else if rs[0].number == n then Some(rs[0]) else FirstRound(rs[1..], n)
  }

  /** The scores a round adds to the numbered bucket `n`. */
  function Contribution(r: RoundRecord, n: int): seq<int> {
    if r.number == n then ScoresOf(r) else []
  }

  function ScoresFor(rs: seq<RoundRecord>, n: int): seq<int> {
    if rs == [] then [] else Contribution(rs[0], n) + ScoresFor(rs[1..], n)
  }

  lemma {:induction false} FirstRoundAppend(rs: seq<RoundRecord>, r: RoundRecord, n: int)
    ensures FirstRound(rs + [r], n) == if FirstRound(rs, n).Some? then FirstRound(rs, n) else if r.number == n then Some(r) else None
  {
    if rs != [] {
      assert (rs + [r])[1..] == rs[1..] + [r];
      FirstRoundAppend(rs[1..], r, n);
    }
  }

  lemma {:induction false} ScoresForAppend(rs: seq<RoundRecord>, r: RoundRecord, n: int)
    ensures ScoresFor(rs + [r], n) == ScoresFor(rs, n) + Contribution(r, n)
  {
    if rs == [] {
      assert [r][1..] == [];
      assert ScoresFor([r], n) == Contribution(r, n) + [];
    } else {
      var c := Contribution(rs[0], n);
      assert (rs + [r])[1..] == rs[1..] + [r];
      ScoresForAppend(rs[1..], r, n);
      assert ScoresFor(rs + [r], n) == c + (ScoresFor(rs[1..], n) + Contribution(r, n));
    }
  }

  /** A bucket exists exactly for the round numbers that occur; it holds the
      mission of the first such round and all their scores in order. */
  lemma {:induction false} BucketedSpec(rs: seq<RoundRecord>, n: int)
    ensures n in Bucketed(rs) <==> FirstRound(rs, n).Some?
    ensures n in Bucketed(rs) ==>
      Bucketed(rs)[n] == Bucket(FirstRound(rs, n).value.mission, ScoresFor(rs, n))
  {
    if rs != [] {
      var init := rs[..|rs| - 1];
      var r := rs[|rs| - 1];
      assert rs == init + [r];
      BucketedSpec(init, n);
      BucketedAppend(init, r);
      FirstRoundAppend(init, r, n);
      ScoresForAppend(init, r, n);
      if FirstRound(init, n).None? {
        assert ScoresFor(init, n) == [] by { NoRoundNoScores(init, n); }
      }
    }
  }

  lemma {:induction false} NoRoundNoScores(rs: seq<RoundRecord>, n: int)
    requires FirstRound(rs, n).None?
    ensures ScoresFor(rs, n) == []
  {
    if rs != [] {
      NoRoundNoScores(rs[1..], n);
    }
  }

  // ---------------------------------------------------------------------------
  // getStats

  /** The document's last update time, when there is a non-empty one. */
  function LastUpdate(doc: Document): Option<string> {
    if doc.stats.Some? && doc.stats.value.lastUpdate.Some? && doc.stats.value.lastUpdate.value != "" then
      doc.stats.value.lastUpdate
    else None
  }

  /** Recording one more game adds its winner at the end of the order exactly
      when that winner had no earlier win; otherwise the order is unchanged. */
  lemma WinnerOrderSnoc(gs: seq<Game>, g: Game)
    ensures WinnerOrder(gs + [g]) ==
      if HasWinner(g) && WinCount(gs, g.winner.value) == 0
      then WinnerOrder(gs) + [g.winner.value] else WinnerOrder(gs)
  {
    assert (gs + [g])[..|gs|] == gs;
  }

  /** The order of the winners of an earlier part of the history is kept:
      names that won in the first k games come first, in the same order. */
  lemma {:induction false} WinnerOrderPrefix(gs: seq<Game>, k: nat)
    requires k <= |gs|
    ensures WinnerOrder(gs[..k]) <= WinnerOrder(gs)
    decreases |gs|
  {
    if k < |gs| {
      var front := gs[..|gs| - 1];
      assert front[..k] == gs[..k];
      WinnerOrderPrefix(front, k);
    } else {
      assert gs[..k] == gs;
    }
  }

  /** A name that won within the first k games is listed before a name whose
      first win comes later. */
  lemma WinnerOrderFirstWinFirst(gs: seq<Game>, k: nat, a: string, b: string)
    requires k <= |gs|
    requires WinCount(gs[..k], a) > 0 && WinCount(gs[..k], b) == 0 && WinCount(gs, b) > 0
    ensures exists i, j :: 0 <= i < j < |WinnerOrder(gs)| && WinnerOrder(gs)[i] == a && WinnerOrder(gs)[j] == b
  {
    var p := WinnerOrder(gs[..k]);
    var r := WinnerOrder(gs);
    WinnerOrderPrefix(gs, k);
    var i :| 0 <= i < |p| && p[i] == a;
    var j :| 0 <= j < |r| && r[j] == b;
    assert r[i] == a;
    assert b !in p;
    forall x | 0 <= x < |p| ensures r[x] != b {
      assert r[x] == p[x];
    }
    assert i < |p| <= j;
  }

  lemma WinStep(gs: seq<Game>, i: nat)
    requires i < |gs|
    ensures forall n :: WinCount(gs[..i + 1], n) == WinCount(gs[..i], n) + WinsOf(gs[i], n)
    ensures WinnerOrder(gs[..i + 1]) ==
      if HasWinner(gs[i]) && WinCount(gs[..i], gs[i].winner.value) == 0
      then WinnerOrder(gs[..i]) + [gs[i].winner.value] else WinnerOrder(gs[..i])
  {
    assert gs[..i + 1][..i] == gs[..i];
  }

  /** The first loop of `getStats`, which counts the wins of each name, and
      the conversion of those counts into a list of tallies after it. */
  method CountWinners(games: seq<Game>) returns (tallies: seq<Tally>)
    ensures tallies == WinTallies(games)
  {
    var counts: map<string, nat> := map[];
    var order: seq<string> := [];
    var i := 0;
    while i < |games|
      invariant 0 <= i <= |games|
      invariant order == WinnerOrder(games[..i])
      invariant forall n :: n in counts <==> WinCount(games[..i], n) > 0
      invariant forall n :: n in counts ==> counts[n] == WinCount(games[..i], n)
    {
      var g := games[i];
      WinStep(games, i);
      if HasWinner(g) {
        var w := g.winner.value;
        if w !in counts {
          order := order + [w];
        }
        counts := counts[w := (if w in counts then counts[w] else 0) + 1];
      }
      i := i + 1;
    }
    assert games[..i] == games;
    tallies := seq(|order|, k requires 0 <= k < |order| => Tally(order[k], counts[order[k]]));
  }

  /** The loop of `getStats` that collects every winning score. */
  method CollectScores(games: seq<Game>) returns (entries: seq<BestScore>)
    ensures entries == ScoreEntries(games)
  {
    entries := [];
    var i := 0;
    while i < |games|
      invariant 0 <= i <= |games|
      invariant entries == ScoreEntries(games[..i])
    {
      assert games[..i + 1][..i] == games[..i];
      if HasWinningScore(games[i]) {
        entries := entries + [EntryOf(games[i])];
      }
      i := i + 1;
    }
    assert games[..i] == games;
  }

  /** The nested loops of `getStats` that group the round scores by round number. */
  method CollectRounds(games: seq<Game>) returns (buckets: map<int, Bucket>)
    ensures buckets == Buckets(games)
  {
    buckets := map[];
    var i := 0;
    while i < |games|
      invariant 0 <= i <= |games|
      invariant buckets == Bucketed(AllRounds(games[..i]))
    {
      var before := AllRounds(games[..i]);
      var rs := RoundsOf(games[i]);
      var j := 0;
      assert before + rs[..0] == before;
      while j < |rs|
        invariant 0 <= j <= |rs|
        invariant buckets == Bucketed(before + rs[..j])
      {
        var r := rs[j];
        assert before + rs[..j + 1] == (before + rs[..j]) + [r];
        BucketedAppend(before + rs[..j], r);
        if r.number !in buckets {
          buckets := buckets[r.number := Bucket(r.mission, [])];
          assert [] + ScoresOf(r) == ScoresOf(r);
        }
        buckets := buckets[r.number := Bucket(buckets[r.number].mission, buckets[r.number].scores + ScoresOf(r))];
        j := j + 1;
      }
      assert rs[..j] == rs;
      AllRoundsAppend(games, i);
      i := i + 1;
    }
    assert games[..i] == games;
  }

  /** `getStats` on the loaded document. */
  method GetStats(doc: Document) returns (s: Summary)
    ensures s.totalGames == |doc.games|
    ensures s.totalPlayers == TotalPlayers(doc.games)
    ensures s.topWinners == TopWinners(doc.games)
    ensures s.bestScores == BestScores(doc.games)
    ensures s.scoresByRound == Buckets(doc.games)
    ensures s.lastUpdate == LastUpdate(doc)
  {
    var games := doc.games;
    var tallies := CountWinners(games);
    var entries := CollectScores(games);
    var buckets := CollectRounds(games);
    s := Summary(|games|, TotalPlayers(games), Take(SortBy(entries, ScoreKey), BestScoresShown),
                 Take(SortBy(tallies, NegWins), TopWinnersShown), buckets, LastUpdate(doc));
  }
}
