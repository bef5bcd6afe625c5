/** The front end's game catalogue: the fixed list of games, the lookups
    the pages use, and the one operation that renames a game in place. */
module Games {
  import opened Wrappers
  import opened Js

  datatype Category = Populares | Nuevos | Crash | Slots | EnVivo | Blackjack | Ruleta | Poker | Bingo

  /** `CATEGORIES`, in display order. */
  const Categories: seq<Category> := [Populares, Nuevos, Crash, Slots, EnVivo, Blackjack, Ruleta, Poker, Bingo]

  /** A catalogue entry; `img` is absent or null for most games and `url`
      is absent for games that cannot be embedded yet. */
  datatype Game = Game(id: string, slug: string, name: string, provider: string,
                       img: Option<string>, categories: seq<Category>, url: Option<string>)

  /** `isPlayable(game)`: there is a game and its url is a non-empty
      string. */
  predicate IsPlayable(game: Option<Game>) {
    game.Some? && game.value.url.Some? && game.value.url.value != ""
  }

  /** `CATALOG`, with `DRONX_URL` (an absolute URL read from the build's
      environment) as a parameter. */
  function InitialCatalog(dronxUrl: string): seq<Game> {
    [
      Game("g1", "dron-x", "DronX", "DronX", Some("/games/dronx.png"), [Populares, Crash, Nuevos], Some(dronxUrl)),
      Game("g2", "ruleta-vip", "Ruleta VIP", "Evolution", Some("/games/ruleta-vip.png"), [Populares, Ruleta], Some("https://juegos.example.com/ruleta-vip")),
      Game("g3", "blackjack-pro", "Blackjack Pro", "PlayTech", None, [Blackjack, Populares], Some("https://juegos.example.com/blackjack-pro")),
      Game("g4", "poker-texas", "Poker Texas", "iSoftBet", None, [Poker], Some("https://juegos.example.com/poker-texas")),
      Game("g5", "bingo-70", "Bingo 70", "Pragmatic", None, [Bingo], Some("https://juegos.example.com/bingo-70")),
      Game("g6", "crash-rocket", "Crash Rocket", "Hacksaw", None, [Crash, Nuevos], Some("https://juegos.example.com/crash-rocket")),
      Game("g7", "casino-en-vivo-ruleta", "Ruleta en vivo", "Evolution Live", None, [EnVivo, Ruleta], Some("https://juegos.example.com/casino-en-vivo-ruleta")),
      Game("g8", "slots-egipcios", "Slots Egipcios", "ElGranCasino", None, [Slots], Some("https://juegos.example.com/slots-egipcios"))
    ]
  }

  // ---------------------------------------------------------------------
  // Lookups on a list of games
  // ---------------------------------------------------------------------

  /** `games.filter(g => g.categories.includes(category))` */
  function InCategory(games: seq<Game>, category: Category): (r: seq<Game>)
    ensures |r| <= |games|
    ensures forall g :: g in r ==> g in games && category in g.categories
  {
    if games == [] then []
    else
      var rest := InCategory(games[1..], category);
      if category in games[0].categories then [games[0]] + rest else rest
  }

  /** Filtering a concatenation filters each part, so the result keeps
      the catalogue's order. */
  lemma {:induction false} InCategoryConcat(a: seq<Game>, b: seq<Game>, category: Category)
    ensures InCategory(a + b, category) == InCategory(a, category) + InCategory(b, category)
  {
    if a != [] {
      assert (a + b)[1..] == a[1..] + b;
      InCategoryConcat(a[1..], b, category);
    } else {
      assert a + b == b;
    }
  }

  /** Every game of the category is kept. */
  lemma {:induction false} InCategoryKeeps(games: seq<Game>, category: Category, g: Game)
    requires g in games && category in g.categories
    ensures g in InCategory(games, category)
  {
    if games[0] != g {
      InCategoryKeeps(games[1..], category, g);
    }
  }

  /** The index of the first game with `slug`, as `find` would reach it. */
  function FindSlug(games: seq<Game>, slug: string): (r: Option<nat>)
    ensures r.Some? ==> r.value < |games| && games[r.value].slug == slug
    ensures r.Some? ==> forall j :: 0 <= j < r.value ==> games[j].slug != slug
    ensures r.None? <==> forall j :: 0 <= j < |games| ==> games[j].slug != slug
  {
    if games == [] then None
    else if games[0].slug == slug then Some(0)
    else match FindSlug(games[1..], slug)
      case None => None
      case Some(k) => Some(k + 1)
  }

  /** Slugs are unique in the list. */
  predicate DistinctSlugs(games: seq<Game>) {
    forall i, j :: 0 <= i < j < |games| ==> games[i].slug != games[j].slug
  }

  /** The catalogue as shipped: slugs and ids are unique. */
  lemma {:induction false} InitialCatalogDistinct(dronxUrl: string)
    ensures DistinctSlugs(InitialCatalog(dronxUrl))
    ensures forall i, j :: 0 <= i < j < |InitialCatalog(dronxUrl)| ==> InitialCatalog(dronxUrl)[i].id != InitialCatalog(dronxUrl)[j].id
  {
  }

  /** Every shipped game has a non-empty url, given that DRONX_URL, an
      absolute URL, is not empty. */
  lemma InitialCatalogPlayable(dronxUrl: string)
    requires dronxUrl != ""
    ensures forall i :: 0 <= i < |InitialCatalog(dronxUrl)| ==> IsPlayable(Some(InitialCatalog(dronxUrl)[i]))
  {
  }

  /** Filtering keeps the games of the category and drops the others,
      one position at a time. */
  lemma InCategoryStep(games: seq<Game>, category: Category, k: nat)
    requires k < |games|
    ensures InCategory(games[k..], category)
      == (if category in games[k].categories then [games[k]] else []) + InCategory(games[k + 1..], category)
  {
    assert games[k..][1..] == games[k + 1..];
  }

  /** In a list of eight games where only the first and the sixth are
      crash games, the crash filter gives those two. */
  lemma CrashAtZeroAndFive(c: seq<Game>)
    requires |c| == 8
    requires Crash in c[0].categories && Crash in c[5].categories
    requires forall k :: 0 <= k < 8 && k != 0 && k != 5 ==> Crash !in c[k].categories
    ensures InCategory(c, Crash) == [c[0], c[5]]
  {
    assert InCategory(c[8..], Crash) == [];
    assert InCategory(c[7..], Crash) == [] by { InCategoryStep(c, Crash, 7); }
    assert InCategory(c[6..], Crash) == [] by { InCategoryStep(c, Crash, 6); }
    assert InCategory(c[5..], Crash) == [c[5]] by { InCategoryStep(c, Crash, 5); }
    assert InCategory(c[4..], Crash) == [c[5]] by { InCategoryStep(c, Crash, 4); }
    assert InCategory(c[3..], Crash) == [c[5]] by { InCategoryStep(c, Crash, 3); }
    assert InCategory(c[2..], Crash) == [c[5]] by { InCategoryStep(c, Crash, 2); }
    assert InCategory(c[1..], Crash) == [c[5]] by { InCategoryStep(c, Crash, 1); }
    assert InCategory(c[0..], Crash) == [c[0], c[5]] by { InCategoryStep(c, Crash, 0); }
    assert c[0..] == c;
  }

  /** The crash category holds DronX and Crash Rocket, in that order. */
  lemma InitialCrashGames(dronxUrl: string)
    ensures InCategory(InitialCatalog(dronxUrl), Crash) == [InitialCatalog(dronxUrl)[0], InitialCatalog(dronxUrl)[5]]
  {
    CrashAtZeroAndFive(InitialCatalog(dronxUrl));
  }

  // ---------------------------------------------------------------------
  // The catalogue
  // ---------------------------------------------------------------------

  /** `CATALOG`: the list every lookup reads and `setGameName` edits. */
  class Catalog {
    var games: seq<Game>

    constructor (dronxUrl: string)
      ensures games == InitialCatalog(dronxUrl)
    {
      games := InitialCatalog(dronxUrl);
    }

    /** `getGames(category)`: exactly the games of the category. */
    function GetGames(category: Category): (r: seq<Game>)
      reads this
      ensures forall g :: g in r <==> g in games && category in g.categories
    {
      forall g | g in games && category in g.categories
        ensures g in InCategory(games, category)
      {
        InCategoryKeeps(games, category, g);
      }
      InCategory(games, category)
    }

    /** `getGameBySlug(slug)`: the first game with that slug, if any. */
    function GetGameBySlug(slug: string): (r: Option<Game>)
      reads this
      ensures r.Some? ==> r.value in games && r.value.slug == slug
      ensures r.Some? ==> exists i :: 0 <= i < |games| && games[i] == r.value && forall j :: 0 <= j < i ==> games[j].slug != slug
      ensures r.None? <==> forall g :: g in games ==> g.slug != slug
    {
      match FindSlug(games, slug)
      case None => None
      case Some(i) => Some(games[i])
    }

    /** `getPlayableBySlug(slug)`: the game with that slug when it is
        playable, nothing otherwise. */
    function GetPlayableBySlug(slug: string): (r: Option<Game>)
      reads this
      ensures r.Some? ==> IsPlayable(r) && r == GetGameBySlug(slug)
      ensures r.None? <==> !IsPlayable(GetGameBySlug(slug))
    {
      var g := GetGameBySlug(slug);
      if IsPlayable(g) then g else None
    }

    /** `setGameName(slug, newName)`: the first game with that slug gets
        the trimmed name and is returned; every other field and every
        other game stay as they were. An unknown slug changes nothing. */
    method SetGameName(slug: string, newName: string) returns (r: Option<Game>)
      modifies this
      ensures FindSlug(old(games), slug).None? ==> r.None? && games == old(games)
      ensures FindSlug(old(games), slug).Some? ==>
        var i := FindSlug(old(games), slug).value;
        games == old(games)[i := old(games)[i].(name := Trim(newName))]
      ensures r == GetGameBySlug(slug)
      ensures forall i :: 0 <= i < |games| ==> games[i].slug == old(games)[i].slug
    {
      var k := FindSlug(games, slug);
      if k.None? {
        return None;
      }
      var i := k.value;
      var g := games[i].(name := Trim(newName));
      RenameKeepsLookups(games, i, Trim(newName), slug);
      games := games[i := g];
      r := Some(g);
    }
  }

  /** Lists with the same slugs in the same places agree on every slug
      lookup. */
  lemma {:induction false} FindSlugSameSlugs(a: seq<Game>, b: seq<Game>, slug: string)
    requires |a| == |b| && forall i :: 0 <= i < |a| ==> a[i].slug == b[i].slug
    ensures FindSlug(a, slug) == FindSlug(b, slug)
  {
    if a != [] && a[0].slug != slug {
      FindSlugSameSlugs(a[1..], b[1..], slug);
    }
  }

  /** Renaming keeps slugs unique and does not change which game a slug
      finds, its url or whether it is playable. */
  lemma RenameKeepsLookups(games: seq<Game>, i: nat, newName: string, slug: string)
    requires i < |games|
    ensures DistinctSlugs(games) ==> DistinctSlugs(games[i := games[i].(name := newName)])
    ensures FindSlug(games[i := games[i].(name := newName)], slug) == FindSlug(games, slug)
    ensures forall j :: 0 <= j < |games| ==> games[i := games[i].(name := newName)][j].slug == games[j].slug
  {
    FindSlugSameSlugs(games, games[i := games[i].(name := newName)], slug);
  }

  /** With unique slugs, the game found for a slug is the one at its
      index, whatever order the lookup walks. */
  lemma UniqueSlugLookup(games: seq<Game>, i: nat)
    requires DistinctSlugs(games) && i < |games|
    ensures FindSlug(games, games[i].slug) == Some(i)
  {
  }

  /** Every category is listed once. */
  lemma CategoriesComplete(c: Category)
    ensures c in Categories
    ensures forall i, j :: 0 <= i < j < |Categories| ==> Categories[i] != Categories[j]
  {
  }
}
