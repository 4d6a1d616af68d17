/**
 * The application shell's state: the current screen, the petition list, the
 * selected petition, the list view's options and the hero carousel position,
 * with the handlers that update them.
 */
module AppState {
  import opened Wrappers
  import opened Types
  import opened Constants
  import opened PetitionList
  import opened LocalCache

  /** What the main area renders. */
  datatype Screen = HomeScreen | CreateScreen | DetailScreen(petition: Petition) | AboutScreen

  /**
   * `renderContent`: the create form, the detail page of the selected petition
   * (only when the selected id is non-empty and still in the list), the about
   * page, and the home page otherwise.
   */
  function ScreenFor(view: ViewState, selected: Option<string>, ps: seq<Petition>): (s: Screen)
    ensures s == CreateScreen <==> view == Create
    ensures s == AboutScreen <==> view == About
    ensures s.DetailScreen? <==>
      view == Detail && selected.Some? && selected.value != "" &&
      exists i :: 0 <= i < |ps| && ps[i].id == selected.value
    ensures s.DetailScreen? ==> s.petition in ps && s.petition.id == selected.value
    ensures s.DetailScreen? ==> FindPetition(ps, selected.value) == Some(s.petition)
    ensures s == HomeScreen <==>
      view == Home ||
      (view == Detail && (selected.None? || selected.value == "" || forall i :: 0 <= i < |ps| ==> ps[i].id != selected.value))
  {
    if view == Create then CreateScreen
    else if view == Detail && selected.Some? && selected.value != "" && FindPetition(ps, selected.value).Some? then
      var p := FindPetition(ps, selected.value).value;
      assert exists i :: FirstMatch(ps, selected.value, i) && ps[i] == p;
      DetailScreen(p)
    else if view == About then AboutScreen
    else
      assert view == Detail && selected.Some? && selected.value != "" ==> FindPetition(ps, selected.value).None?;
      HomeScreen
  }

  class App {
    var view: ViewState
    var petitions: seq<Petition>
    var selectedPetitionId: Option<string>
    var showAll: bool
    var sortOption: SortOption
    var heroIndex: nat

    /** The carousel always points at one of its images. */
    ghost predicate Valid()
      reads this
    {
      heroIndex < |HeroImages|
    }

    /** The state on first render, with the seed list made at module load time `loadTime`. */
    constructor (loadTime: int)
      ensures Valid()
      ensures view == Home && petitions == InitialPetitions(loadTime) && selectedPetitionId == None
      ensures !showAll && sortOption == Popular && heroIndex == 0
    {
      view := Home;
      petitions := InitialPetitions(loadTime);
      selectedPetitionId := None;
      showAll := false;
      sortOption := Popular;
      heroIndex := 0;
    }

    /** `handleCreatePetition`: the new petition goes first and the home screen is shown. */
    method HandleCreatePetition(data: PetitionDraft, now: nat)
      modifies this`petitions, this`view
      ensures petitions == AddPetition(old(petitions), data, now)
      ensures view == Home
      ensures TotalSignatures(petitions) == TotalSignatures(old(petitions))
    {
      petitions := AddPetition(petitions, data, now);
      view := Home;
    }

    /** `handleSignPetition`: the signature is appended to every petition with that id. */
    method HandleSignPetition(id: string, signer: SignerData, now: nat)
      modifies this`petitions
      ensures petitions == SignPetition(old(petitions), id, signer, now)
      ensures TotalSignatures(petitions) == TotalSignatures(old(petitions)) + CountId(old(petitions), id)
    {
      SignTotal(petitions, id, NewSignature(signer, now));
      petitions := SignPetition(petitions, id, signer, now);
    }

    /** Clicking a card: remember its id and switch to the detail screen. */
    method OpenPetition(id: string)
      modifies this`selectedPetitionId, this`view
      ensures selectedPetitionId == Some(id) && view == Detail
    {
      selectedPetitionId := Some(id);
      view := Detail;
    }

    /** The navigation buttons and the back/cancel callbacks: `setView`. */
    method Navigate(target: ViewState)
      modifies this`view
      ensures view == target
    {
      view := target;
    }

    /** The sort tabs: `setSortOption`. */
    method ChooseSort(opt: SortOption)
      modifies this`sortOption
      ensures sortOption == opt
    {
      sortOption := opt;
    }

    /** The "more" button: `setShowAll(true)`. */
    method ShowAllPetitions()
      modifies this`showAll
      ensures showAll
    {
      showAll := true;
    }

    /** One tick of the rotation timer. */
    method AdvanceHero()
      requires Valid()
      modifies this`heroIndex
      ensures Valid()
      ensures heroIndex == NextHeroIndex(old(heroIndex))
    {
      heroIndex := NextHeroIndex(heroIndex);
    }

    /** The cards on the home screen, in display order. */
    function Displayed(): (r: seq<Petition>)
      reads this
      ensures !showAll ==> |r| <= PageSize
      ensures showAll ==> multiset(r) == multiset(petitions)
      ensures forall p :: p in r ==> p in petitions
    {
      var sorted := GetSortedPetitions(petitions, sortOption);
      var r := DisplayedPetitions(sorted, showAll);
      assert forall p :: p in r ==> p in multiset(sorted);
      r
    }

    /** The screen `renderContent` shows for the current state. */
    function CurrentScreen(): (s: Screen)
      reads this
      ensures s.DetailScreen? ==> view == Detail && s.petition in petitions
    {
      ScreenFor(view, selectedPetitionId, petitions)
    }

    /** The load-on-mount effect; on a disabled storage it throws and the list stays as it was. */
    method LoadOnMount(store: LocalStorage, codec: Codec) returns (outcome: LoadOutcome)
      modifies this`petitions, store`log
      ensures outcome == Threw <==> !store.enabled
      ensures petitions == if store.enabled then LoadedPetitions(Stored(store.items), old(petitions), codec)
                           else old(petitions)
    {
      outcome, petitions := LoadPetitions(store, petitions, codec);
    }

    /** The save-on-change effect, run with the current list. */
    method Persist(store: LocalStorage, codec: Codec) returns (outcome: SaveOutcome)
      modifies store`items, store`log
      ensures (outcome, store.items) ==
        SaveEffect(old(store.items), store.quota, store.reserved, store.enabled, codec.stringify(petitions))
    {
      outcome := SavePetitions(store, petitions, codec);
    }
  }
}
