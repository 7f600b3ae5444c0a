/**
  The relaxation-games card: a fixed catalogue of four games; clicking one selects it,
  opens the dialog and reports the play to an optional asynchronous callback, whose
  failure is only logged; the dialog body is chosen by the selected game's id.
*/
module AnxietyGames {
  import opened Wrappers

  /** A catalogue entry (the icon and colour classes are not modelled). */
  datatype Game = Game(id: string, title: string, description: string, duration: string)

  /** The `games` catalogue, in display order. */
  const GAMES: seq<Game> := [
    Game("breathing", "呼吸练习", "通过视觉引导进行平缓的呼吸训练", "5 分钟"),
    Game("rain", "寂静小雨", "感受雨水流过脸颊的清凉和镇静", "10 分钟"),
    Game("forest", "正念森林", "在虚拟森林中进行一次平静的正念漫步", "15 分钟"),
    Game("waves", "海浪呼吸", "将呼吸节奏与轻柔的海浪同步", "8 分钟")
  ]

  /** The component's two state cells. */
  datatype Selection = Selection(selectedGame: Option<string>, showGame: bool)

  /** Nothing selected, dialog closed. */
  const INITIAL: Selection := Selection(None, false)

  /** The game components the dialog can show. */
  datatype View = BreathingGame | Rain | Forest | OceanWaves

  /** How an `onGamePlayed` promise settles. */
  datatype Settled = Fulfilled | Rejected

  /** `list.find(g => g.id === id)`. */
  function FindIn(list: seq<Game>, id: string): (r: Option<Game>)
    ensures r.Some? ==> r.value in list && r.value.id == id
    ensures r.None? ==> forall i :: 0 <= i < |list| ==> list[i].id != id
    ensures r.Some? ==> exists i :: 0 <= i < |list| && list[i] == r.value
                                    && forall j :: 0 <= j < i ==> list[j].id != id
  {
    if list == [] then None
    else if list[0].id == id then Some(list[0])
    else
      var r := FindIn(list[1..], id);
      if r.Some? then
        ghost var i :| 0 <= i < |list[1..]| && list[1..][i] == r.value
                       && forall j :: 0 <= j < i ==> list[1..][j].id != id;
        assert list[i + 1] == r.value;
        r
      else r
  }

  function Find(id: string): Option<Game> {
    FindIn(GAMES, id)
  }

  /** `games.find(...)?.description || ""`: the entry's description, or empty for an unknown id. */
  function DescriptionFor(id: string): (d: string)
    ensures forall i :: 0 <= i < |GAMES| && GAMES[i].id == id ==> d == GAMES[i].description
    ensures (forall i :: 0 <= i < |GAMES| ==> GAMES[i].id != id) ==> d == ""
  {
    CatalogueIdsDistinct();
    match Find(id)
    case Some(g) => if g.description == "" then "" else g.description
    case None => ""
  }

  /** What one click on a game card does. */
  datatype StartEffect = StartEffect(
    state: Selection,
    /** The arguments `onGamePlayed` was called with, if it was supplied. */
    reported: Option<(string, string)>,
    /** Whether a rejection was caught and written to the console. */
    errorLogged: bool)

  /**
    `handleGameStart`: select the game and open the dialog, then, when a callback is
    supplied, call it once with the id and its description; a rejection is caught and
    logged and leaves the state as set.
  */
  function HandleGameStart(s: Selection, gameId: string, onGamePlayed: Option<(string, string) -> Settled>)
    : (r: StartEffect)
    ensures r.state.selectedGame == Some(gameId) && r.state.showGame
    ensures r.reported.Some? <==> onGamePlayed.Some?
    ensures r.reported.Some? ==> r.reported.value == (gameId, DescriptionFor(gameId))
    ensures r.errorLogged <==> onGamePlayed.Some? && onGamePlayed.value(gameId, DescriptionFor(gameId)) == Rejected
  {
    var state := Selection(Some(gameId), true);
    match onGamePlayed
    case None => StartEffect(state, None, false)
    case Some(callback) =>
      var description := DescriptionFor(gameId);
      StartEffect(state, Some((gameId, description)), callback(gameId, description) == Rejected)
  }

  /** The dialog's `onOpenChange`: only the open flag changes, the selection is kept. */
  function SetShowGame(s: Selection, open: bool): (r: Selection)
    ensures r.showGame == open && r.selectedGame == s.selectedGame
  {
    s.(showGame := open)
  }

  /** `renderGame`: the component for a known id, nothing for any other id or no selection. */
  function RenderGame(selectedGame: Option<string>): (v: Option<View>)
    ensures v.Some? <==>
              selectedGame.Some? && selectedGame.value in {"breathing", "rain", "forest", "waves"}
    ensures v == Some(BreathingGame) <==> selectedGame == Some("breathing")
    ensures v == Some(Rain) <==> selectedGame == Some("rain")
    ensures v == Some(Forest) <==> selectedGame == Some("forest")
    ensures v == Some(OceanWaves) <==> selectedGame == Some("waves")
  {
    match selectedGame
    case None => None
    case Some(id) =>
      if id == "breathing" then Some(BreathingGame)
      else if id == "rain" then Some(Rain)
      else if id == "forest" then Some(Forest)
      else if id == "waves" then Some(OceanWaves)
      else None
  }

  /** The dialog title: the selected entry's title, if the selection is in the catalogue. */
  function DialogTitle(s: Selection): (t: Option<string>)
    ensures t.Some? <==> s.selectedGame.Some? && Find(s.selectedGame.value).Some?
  {
    match s.selectedGame
    case None => None
    case Some(id) =>
      match Find(id)
      case None => None
      case Some(g) => Some(g.title)
  }

  /** The card drawn with a ring: the one whose id is selected. */
  predicate Ringed(s: Selection, g: Game) {
    s.selectedGame == Some(g.id)
  }

  /** What the open dialog shows, if it is open. */
  function Shown(s: Selection): Option<View> {
    if s.showGame then RenderGame(s.selectedGame) else None
  }

  /** On mount nothing is selected and the dialog shows no game and no title. */
  lemma InitialShowsNothing()
    ensures Shown(INITIAL) == None && DialogTitle(INITIAL) == None
    ensures forall g :: g in GAMES ==> !Ringed(INITIAL, g)
  {
  }

  /** The catalogue's ids are pairwise distinct, so lookup by id names one entry. */
  lemma CatalogueIdsDistinct()
    ensures forall i, j :: 0 <= i < j < |GAMES| ==> GAMES[i].id != GAMES[j].id
    ensures forall i :: 0 <= i < |GAMES| ==> Find(GAMES[i].id) == Some(GAMES[i])
  {
    assert forall i, j :: 0 <= i < j < |GAMES| ==> |GAMES[i].id| != |GAMES[j].id|;
  }

  /** An id has a game component exactly when it is in the catalogue. */
  lemma RendererIffCatalogued(id: string)
    ensures RenderGame(Some(id)).Some? <==> Find(id).Some?
  {
    CatalogueIdsDistinct();
    if RenderGame(Some(id)).Some? {
      assert id in {GAMES[0].id, GAMES[1].id, GAMES[2].id, GAMES[3].id};
    }
  }

  /**
    Clicking a card, whatever the callback does, leaves that card ringed and its game
    showing in the open dialog under its title.
  */
  lemma StartShowsClickedGame(s: Selection, k: nat, onGamePlayed: Option<(string, string) -> Settled>)
    requires k < |GAMES|
    ensures var r := HandleGameStart(s, GAMES[k].id, onGamePlayed).state;
            Ringed(r, GAMES[k]) && Shown(r).Some? && DialogTitle(r) == Some(GAMES[k].title)
    ensures HandleGameStart(s, GAMES[k].id, onGamePlayed).reported.Some? ==>
              HandleGameStart(s, GAMES[k].id, onGamePlayed).reported.value.1 == GAMES[k].description
  {
    CatalogueIdsDistinct();
    RendererIffCatalogued(GAMES[k].id);
  }
}
