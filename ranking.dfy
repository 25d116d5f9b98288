/**
 * Ranking of the owned-games list by playtime, descending (a stable sort, as
 * JavaScript's `Array.prototype.sort` is), and the games-per-cycle ceiling.
 */
module Ranking {
  import opened SteamClient

  ghost predicate SortedByPlaytime(s: seq<OwnedGame>) {
    forall i, j :: 0 <= i < j < |s| ==> Playtime(s[i]) >= Playtime(s[j])
  }

  /** The games of `s` whose playtime is `p`, in their order in `s`. */
  function WithPlaytime(s: seq<OwnedGame>, p: int): (r: seq<OwnedGame>)
    ensures |r| <= |s|
  {
    if s == [] then []
    else (if Playtime(s[0]) == p then [s[0]] else []) + WithPlaytime(s[1..], p)
  }

  lemma WithPlaytimeCons(x: OwnedGame, s: seq<OwnedGame>, p: int)
    ensures WithPlaytime([x] + s, p) == (if Playtime(x) == p then [x] else []) + WithPlaytime(s, p)
  {
    assert ([x] + s)[1..] == s;
  }

  /** `g` placed before the first game of `s` whose playtime does not exceed its own. */
  function InsertByPlaytime(g: OwnedGame, s: seq<OwnedGame>): (r: seq<OwnedGame>)
    ensures |r| == |s| + 1
    ensures multiset(r) == multiset(s) + multiset{g}
    ensures SortedByPlaytime(s) ==> SortedByPlaytime(r)
  {
    if s == [] || Playtime(s[0]) <= Playtime(g) then [g] + s
    else
      var rest := InsertByPlaytime(g, s[1..]);
      assert s == [s[0]] + s[1..];
      assert SortedByPlaytime(s) ==> SortedByPlaytime([s[0]] + rest) by {
        if SortedByPlaytime(s) {
          assert SortedByPlaytime(s[1..]);
          InsertedFrontSorted(g, s, rest);
        }
      }
      [s[0]] + rest
  }

  /** Sortedness in the inductive step of InsertByPlaytime when `g` goes after `s[0]`. */
  lemma InsertedFrontSorted(g: OwnedGame, s: seq<OwnedGame>, rest: seq<OwnedGame>)
    requires s != [] && Playtime(s[0]) > Playtime(g)
    requires multiset(rest) == multiset(s[1..]) + multiset{g}
    requires SortedByPlaytime(s) && SortedByPlaytime(rest)
    ensures SortedByPlaytime([s[0]] + rest)
  {
    var r := [s[0]] + rest;
    forall j | 0 <= j < |rest| ensures Playtime(rest[j]) <= Playtime(s[0]) {
      assert rest[j] in multiset(rest);
      if rest[j] != g {
        assert rest[j] in multiset(s[1..]);
        var k :| 0 <= k < |s[1..]| && s[1..][k] == rest[j];
        assert s[k + 1] == rest[j];
      }
    }
    forall i, j | 0 <= i < j < |r| ensures Playtime(r[i]) >= Playtime(r[j]) {
      if i > 0 {
        assert r[i] == rest[i - 1] && r[j] == rest[j - 1];
      } else {
        assert r[j] == rest[j - 1];
      }
    }
  }

  /** Inserting `g` puts it in front of every game of equal playtime. */
  lemma {:induction false} InsertStable(g: OwnedGame, s: seq<OwnedGame>, p: int)
    ensures WithPlaytime(InsertByPlaytime(g, s), p) == (if Playtime(g) == p then [g] else []) + WithPlaytime(s, p)
  {
    if s == [] || Playtime(s[0]) <= Playtime(g) {
      WithPlaytimeCons(g, s, p);
    } else {
      var rest := InsertByPlaytime(g, s[1..]);
      InsertStable(g, s[1..], p);
      WithPlaytimeCons(s[0], rest, p);
      WithPlaytimeCons(s[0], s[1..], p);
      assert [s[0]] + s[1..] == s;
    }
  }

  /**
   * `games.sort((a, b) => (b.playtime_forever ?? 0) - (a.playtime_forever ?? 0))`:
   * ordered by playtime, descending, and a permutation of the input.
   */
  function Ranked(gs: seq<OwnedGame>): (r: seq<OwnedGame>)
    ensures |r| == |gs|
    ensures multiset(r) == multiset(gs)
    ensures SortedByPlaytime(r)
  {
    if gs == [] then []
    else
      assert gs == [gs[0]] + gs[1..];
      InsertByPlaytime(gs[0], Ranked(gs[1..]))
  }

  /** The sort is stable: games of equal playtime keep their input order. */
  lemma {:induction false} RankedStable(gs: seq<OwnedGame>, p: int)
    ensures WithPlaytime(Ranked(gs), p) == WithPlaytime(gs, p)
  {
    if gs != [] {
      RankedStable(gs[1..], p);
      InsertStable(gs[0], Ranked(gs[1..]), p);
      WithPlaytimeCons(gs[0], gs[1..], p);
      assert [gs[0]] + gs[1..] == gs;
    }
  }

  /** `maxGames <= 0 ? games : games.slice(0, maxGames)`. */
  function Select(ranked: seq<OwnedGame>, maxGames: int): (r: seq<OwnedGame>)
    ensures |r| == if maxGames <= 0 || maxGames >= |ranked| then |ranked| else maxGames
    ensures r == ranked[..|r|]
  {
    if maxGames <= 0 then ranked
    else ranked[..if maxGames < |ranked| then maxGames else |ranked|]
  }

  /** Every selected game has at least the playtime of every game left out by the ceiling. */
  lemma SelectionIsTop(owned: seq<OwnedGame>, maxGames: int)
    ensures var ranked := Ranked(owned);
      var sel := Select(ranked, maxGames);
      forall i, j :: 0 <= i < |sel| <= j < |ranked| ==> Playtime(sel[i]) >= Playtime(ranked[j])
  {
  }
}
