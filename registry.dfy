/** The global pseudonym registry (players.js): a `{players: [...]}` document,
    loaded by `getPlayers` and written back by `savePlayers`. Each operation
    here takes the loaded document and returns the one it hands to
    `savePlayers` (or says that it saves nothing). Names are compared
    case-insensitively. */
module PlayerRegistry {
  import opened Common

  datatype Stats = Stats(gamesPlayed: int, gamesWon: int, bestScore: Option<int>, bestScoreDate: Option<string>)

  /** A registered pseudonym; `stats` may be missing in an older document. */
  datatype Entry = Entry(name: string, createdAt: string, stats: Option<Stats>)

  datatype Registry = Registry(players: seq<Entry>)

  /** The stats a new entry starts with, and that a missing `stats` becomes. */
  const InitialStats := Stats(0, 0, None, None)

  function NewEntry(name: string, now: string): Entry {
    Entry(name, now, Some(InitialStats))
  }

  /** Whether some entry carries `name`, ignoring the case of ASCII letters. */
  function AnyNamed(ps: seq<Entry>, name: string): (b: bool)
    ensures b <==> exists i :: 0 <= i < |ps| && SameName(ps[i].name, name)
  {
    if ps == [] then false
    else if SameName(ps[0].name, name) then true
    else
      var b := AnyNamed(ps[1..], name);
      assert b ==> exists i :: 0 <= i < |ps[1..]| && SameName(ps[1..][i].name, name);
      assert forall i :: 1 <= i < |ps| ==> ps[i] == ps[1..][i - 1];
      b
  }

  /** `playerExists`. */
  function PlayerExists(reg: Registry, name: string): (b: bool)
    ensures b <==> exists i :: 0 <= i < |reg.players| && SameName(reg.players[i].name, name)
  {
    AnyNamed(reg.players, name)
  }

  lemma AnyNamedAppend(ps: seq<Entry>, e: Entry, name: string)
    ensures AnyNamed(ps + [e], name) <==> AnyNamed(ps, name) || SameName(e.name, name)
  {
    if AnyNamed(ps, name) {
      var i :| 0 <= i < |ps| && SameName(ps[i].name, name);
      assert (ps + [e])[i] == ps[i];
    }
    if SameName(e.name, name) {
      assert (ps + [e])[|ps|] == e;
    }
  }

  /** The index `Array.prototype.find` stops at: the first case-insensitive match. */
  function FindIndex(ps: seq<Entry>, name: string): (r: Option<nat>)
    ensures r.None? <==> !AnyNamed(ps, name)
    ensures r.Some? ==> r.value < |ps| && SameName(ps[r.value].name, name)
    ensures r.Some? ==> forall j :: 0 <= j < r.value ==> !SameName(ps[j].name, name)
  {
    if ps == [] then None
    else if SameName(ps[0].name, name) then Some(0)
    else match FindIndex(ps[1..], name)
      case None => None
      case Some(k) => Some(k + 1)
  }

  /** No two entries share a lower-cased name. */
  ghost predicate Unique(ps: seq<Entry>) {
    forall i, j :: 0 <= i < j < |ps| ==> !SameName(ps[i].name, ps[j].name)
  }

  /** The names of `names`, in input order, that are already registered. */
  function Taken(reg: Registry, names: seq<string>): (r: seq<string>)
    ensures |r| <= |names|
    ensures forall i :: 0 <= i < |r| ==> r[i] in names && PlayerExists(reg, r[i])
    ensures forall i :: 0 <= i < |names| && PlayerExists(reg, names[i]) ==> names[i] in r
  {
    if names == [] then []
    else
      var last := names[|names| - 1];
      assert names == names[..|names| - 1] + [last];
      Taken(reg, names[..|names| - 1]) + (if PlayerExists(reg, last) then [last] else [])
  }

  /** Checking names one after another: the report for a joined list is the
      report for each part in turn. With `TakenSingle`, names keep input order
      and a name given twice is reported twice. */
  lemma {:induction false} TakenAppend(reg: Registry, a: seq<string>, b: seq<string>)
    ensures Taken(reg, a + b) == Taken(reg, a) + Taken(reg, b)
  {
    if b == [] {
      assert a + b == a;
    } else {
      var init := b[..|b| - 1];
      var last := b[|b| - 1];
      assert b == init + [last];
      assert a + b == (a + init) + [last];
      TakenAppend(reg, a, init);
      TakenSnoc(reg, a + init, last);
      TakenSnoc(reg, init, last);
    }
  }

  /** One more name adds itself at the end when it is registered. */
  lemma TakenSnoc(reg: Registry, names: seq<string>, n: string)
    ensures Taken(reg, names + [n]) == Taken(reg, names) + (if PlayerExists(reg, n) then [n] else [])
  {
    assert (names + [n])[..|names|] == names;
  }

  /** A single name is reported, once, exactly when it is registered. */
  lemma TakenSingle(reg: Registry, n: string)
    ensures Taken(reg, [n]) == if PlayerExists(reg, n) then [n] else []
  {
    assert [n][..0] == [];
  }

  /** `checkPlayers`. */
  method CheckPlayers(reg: Registry, names: seq<string>) returns (existing: seq<string>)
    ensures existing == Taken(reg, names)
    ensures forall n :: n in existing <==> n in names && PlayerExists(reg, n)
  {
    existing := [];
    var i := 0;
    while i < |names|
      invariant 0 <= i <= |names|
      invariant existing == Taken(reg, names[..i])
    {
      assert names[..i + 1][..i] == names[..i];
      if PlayerExists(reg, names[i]) {
        existing := existing + [names[i]];
      }
      i := i + 1;
    }
    assert names[..i] == names;
  }

  /** `addPlayer`: `None` (the source's `false`, nothing saved) when the name is
      taken; otherwise the document with one fresh entry appended, which is
      saved, and the call answers `true`. */
  function AddPlayer(reg: Registry, name: string, now: string): (r: Option<Registry>)
    ensures r.None? <==> PlayerExists(reg, name)
    ensures r.Some? ==> r.value.players == reg.players + [NewEntry(name, now)]
    ensures r.Some? && Unique(reg.players) ==> Unique(r.value.players)
  {
    if PlayerExists(reg, name) then None else Some(Registry(reg.players + [NewEntry(name, now)]))
  }

  /** `ps` is `base` followed by fresh entries for names of `names`, none of
      which shares its lower-cased name with any entry before it. */
  ghost predicate ExtendsWithFresh(base: seq<Entry>, ps: seq<Entry>, names: seq<string>, now: string) {
    && |base| <= |ps| && ps[..|base|] == base
    && (forall j :: |base| <= j < |ps| ==> ps[j] == NewEntry(ps[j].name, now) && ps[j].name in names)
    && (forall i, j :: 0 <= i < j < |ps| && |base| <= j ==> !SameName(ps[i].name, ps[j].name))
  }

  lemma ExtendsWithFreshStep(base: seq<Entry>, ps: seq<Entry>, names: seq<string>, now: string, name: string)
    requires ExtendsWithFresh(base, ps, names, now)
    requires name in names && !AnyNamed(ps, name)
    ensures ExtendsWithFresh(base, ps + [NewEntry(name, now)], names, now)
  {
    var qs := ps + [NewEntry(name, now)];
    assert qs[..|ps|] == ps;
    assert qs[..|base|] == ps[..|base|];
  }

  lemma ExtendsWithFreshNew(base: seq<Entry>, ps: seq<Entry>, names: seq<string>, now: string)
    requires ExtendsWithFresh(base, ps, names, now)
    ensures forall j :: |base| <= j < |ps| ==> !AnyNamed(base, ps[j].name)
    ensures Unique(base) ==> Unique(ps)
  {
    forall j | |base| <= j < |ps| ensures !AnyNamed(base, ps[j].name) {
      forall k | 0 <= k < |base| ensures !SameName(base[k].name, ps[j].name) {
        assert base[k] == ps[k];
      }
    }
    if Unique(base) {
      forall i, j | 0 <= i < j < |ps| ensures !SameName(ps[i].name, ps[j].name) {
        if j < |base| {
          assert ps[i] == base[i] && ps[j] == base[j];
        }
      }
    }
  }

  /** The entries after adding `names` one by one: a name already present,
      ignoring case, in the registry or earlier in the batch is skipped, so the
      first spelling wins and new entries follow input order. */
  function AddAll(ps: seq<Entry>, names: seq<string>, now: string): seq<Entry> {
    if names == [] then ps
    else
      var before := AddAll(ps, names[..|names| - 1], now);
      var name := names[|names| - 1];
      if AnyNamed(before, name) then before else before + [NewEntry(name, now)]
  }

  /** Adding the first `m` names extends the registry with fresh entries for
      names of the batch, and leaves every one of those `m` names present. */
  lemma {:induction false} AddAllFresh(base: seq<Entry>, names: seq<string>, m: nat, now: string)
    requires m <= |names|
    ensures ExtendsWithFresh(base, AddAll(base, names[..m], now), names, now)
    ensures forall n :: n in names[..m] ==> AnyNamed(AddAll(base, names[..m], now), n)
  {
    if m == 0 {
      assert base[..|base|] == base;
    } else {
      var prefix := names[..m];
      assert prefix[..m - 1] == names[..m - 1];
      AddAllFresh(base, names, m - 1, now);
      var before := AddAll(base, names[..m - 1], now);
      var name := names[m - 1];
      assert prefix == names[..m - 1] + [name];
      if !AnyNamed(before, name) {
        var e := NewEntry(name, now);
        ExtendsWithFreshStep(base, before, names, now, name);
        forall n | n in prefix ensures AnyNamed(before + [e], n) {
          AnyNamedAppend(before, e, n);
        }
      }
    }
  }

  /** `addPlayers`: each name is checked against the document as it stands,
      earlier additions of the same batch included. `written` says whether the
      document was handed to `savePlayers`. */
  method AddPlayers(reg: Registry, names: seq<string>, now: string) returns (doc: Registry, added: nat, written: bool)
    ensures doc.players == AddAll(reg.players, names, now)
    ensures added == |doc.players| - |reg.players| && added <= |names|
    ensures doc.players[..|reg.players|] == reg.players
    ensures forall n :: n in names ==> PlayerExists(doc, n)
    ensures forall j :: |reg.players| <= j < |doc.players| ==>
      doc.players[j] == NewEntry(doc.players[j].name, now) &&
      doc.players[j].name in names && !PlayerExists(reg, doc.players[j].name)
    ensures forall i, j :: 0 <= i < j < |doc.players| && |reg.players| <= j ==>
      !SameName(doc.players[i].name, doc.players[j].name)
    ensures Unique(reg.players) ==> Unique(doc.players)
    ensures written <==> added > 0
    ensures !written ==> doc == reg
  {
    var ps := reg.players;
    added := 0;
    var i := 0;
    while i < |names|
      invariant 0 <= i <= |names|
      invariant |ps| == |reg.players| + added && added <= i
      invariant ps == AddAll(reg.players, names[..i], now)
    {
      var name := names[i];
      assert names[..i + 1][..i] == names[..i];
      if !AnyNamed(ps, name) {
        ps := ps + [NewEntry(name, now)];
        added := added + 1;
      }
      i := i + 1;
    }
    assert names[..i] == names;
    AddAllFresh(reg.players, names, |names|, now);
    ExtendsWithFreshNew(reg.players, ps, names, now);
    doc := Registry(ps);
    written := added > 0;
  }

  /** `getAllPlayerNames`. */
  function AllPlayerNames(reg: Registry): (r: seq<string>)
    ensures |r| == |reg.players|
    ensures forall i :: 0 <= i < |r| ==> r[i] == reg.players[i].name
    ensures forall n :: n in r ==> PlayerExists(reg, n)
  {
    seq(|reg.players|, i requires 0 <= i < |reg.players| => reg.players[i].name)
  }

  function Min(a: int, b: int): int { if a <= b then a else b }

  /** The stats after one game: missing stats start from zero, one more game
      played, one more won if `won`, and the best score kept as a running
      minimum whose date moves only on a strict improvement. */
  function Bumped(s: Option<Stats>, won: bool, finalScore: int, now: string): (r: Stats)
    ensures r.gamesPlayed == s.GetOr(InitialStats).gamesPlayed + 1
    ensures r.gamesWon == s.GetOr(InitialStats).gamesWon + (if won then 1 else 0)
    ensures r.bestScore == Some(match s.GetOr(InitialStats).bestScore
                                case None => finalScore
                                case Some(b) => Min(b, finalScore))
    ensures var before := s.GetOr(InitialStats).bestScore;
      r.bestScoreDate == if before.None? || finalScore < before.value then Some(now) else s.GetOr(InitialStats).bestScoreDate
  {
    var base := s.GetOr(InitialStats);
    var played := base.gamesPlayed + 1;
    var wins := if won then base.gamesWon + 1 else base.gamesWon;
    if base.bestScore.None? || finalScore < base.bestScore.value then
      Stats(played, wins, Some(finalScore), Some(now))
    else
      Stats(played, wins, base.bestScore, base.bestScoreDate)
  }

  /** A personal best never gets worse. */
  lemma BestScoreNeverIncreases(s: Stats, won: bool, finalScore: int, now: string)
    requires s.bestScore.Some?
    ensures Bumped(Some(s), won, finalScore, now).bestScore.value <= s.bestScore.value
    ensures Bumped(Some(s), won, finalScore, now).bestScore.value <= finalScore
  {
  }

  /** `updatePlayerStats`: `None` (the source's `false`, nothing saved) for an
      unknown name; otherwise the document in which the first matching entry
      has its stats bumped and nothing else changed. */
  function UpdatePlayerStats(reg: Registry, name: string, won: bool, finalScore: int, now: string): (r: Option<Registry>)
    ensures r.None? <==> !PlayerExists(reg, name)
    ensures r.Some? ==> |r.value.players| == |reg.players|
    ensures r.Some? ==> forall i :: 0 <= i < |reg.players| && !SameName(reg.players[i].name, name) ==>
      r.value.players[i] == reg.players[i]
    ensures r.Some? ==> forall i :: 0 <= i < |reg.players| ==>
      r.value.players[i].name == reg.players[i].name && r.value.players[i].createdAt == reg.players[i].createdAt
    ensures r.Some? ==>
      var k := FindIndex(reg.players, name).value;
      && r.value.players[k].stats == Some(Bumped(reg.players[k].stats, won, finalScore, now))
      && forall i :: 0 <= i < |reg.players| && i != k ==> r.value.players[i] == reg.players[i]
  {
    match FindIndex(reg.players, name)
    case None => None
    case Some(k) =>
      var e := reg.players[k];
      Some(Registry(reg.players[k := e.(stats := Some(Bumped(e.stats, won, finalScore, now)))]))
  }

  /** One element of the array `updateMultiplePlayersStats` receives. */
  datatype StatsUpdate = StatsUpdate(name: string, won: bool, finalScore: int)

  /** One step of `updateMultiplePlayersStats`: unknown names are skipped. */
  function ApplyUpdate(reg: Registry, u: StatsUpdate, now: string): Registry {
    UpdatePlayerStats(reg, u.name, u.won, u.finalScore, now).GetOr(reg)
  }

  function ApplyAll(reg: Registry, us: seq<StatsUpdate>, now: string): Registry {
    if us == [] then reg else ApplyUpdate(ApplyAll(reg, us[..|us| - 1], now), us[|us| - 1], now)
  }

  /** No update in `us` names `name`. */
  predicate Unlisted(name: string, us: seq<StatsUpdate>) {
    forall k :: 0 <= k < |us| ==> !SameName(name, us[k].name)
  }

  /** A name no update of a longer batch names is named by no update of its
      prefix, nor by the added one. */
  lemma UnlistedSnoc(name: string, us: seq<StatsUpdate>, u: StatsUpdate)
    requires Unlisted(name, us + [u])
    ensures Unlisted(name, us) && !SameName(name, u.name)
  {
    assert (us + [u])[|us|] == u;
    forall k | 0 <= k < |us| ensures !SameName(name, us[k].name) {
      assert (us + [u])[k] == us[k];
    }
  }

  /** `updateMultiplePlayersStats`: applies the updates in order to the loaded
      document, which is then always saved (the call always answers `true`).
      Entries no update names keep everything; no entry is renamed. */
  method UpdateMultiplePlayersStats(reg: Registry, updates: seq<StatsUpdate>, now: string) returns (doc: Registry)
    ensures doc == ApplyAll(reg, updates, now)
    ensures |doc.players| == |reg.players|
    ensures forall i :: 0 <= i < |reg.players| ==>
      doc.players[i].name == reg.players[i].name && doc.players[i].createdAt == reg.players[i].createdAt
    ensures forall i :: 0 <= i < |reg.players| && Unlisted(reg.players[i].name, updates) ==>
      doc.players[i] == reg.players[i]
    ensures Unique(reg.players) ==> Unique(doc.players)
  {
    doc := reg;
    var i := 0;
    while i < |updates|
      invariant 0 <= i <= |updates|
      invariant doc == ApplyAll(reg, updates[..i], now)
      invariant |doc.players| == |reg.players|
      invariant forall j :: 0 <= j < |reg.players| ==>
        doc.players[j].name == reg.players[j].name && doc.players[j].createdAt == reg.players[j].createdAt
      invariant forall j :: 0 <= j < |reg.players| && Unlisted(reg.players[j].name, updates[..i]) ==>
        doc.players[j] == reg.players[j]
    {
      var u := updates[i];
      assert updates[..i + 1] == updates[..i] + [u];
      assert updates[..i + 1][..i] == updates[..i];
      var next := ApplyUpdate(doc, u, now);
      forall j | 0 <= j < |reg.players| && Unlisted(reg.players[j].name, updates[..i + 1])
        ensures next.players[j] == reg.players[j]
      {
        UnlistedSnoc(reg.players[j].name, updates[..i], u);
      }
      doc := next;
      i := i + 1;
    }
    assert updates[..i] == updates;
  }
}
