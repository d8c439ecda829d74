/** The profile browser: a list of profiles, each of which can be marked
    or unmarked as a favourite, and a view that shows either all profiles
    or only the favourites. */
module Profiles {
  import Seqs

  datatype ViewType = List | Grid | Favorites

  /** A profile as far as the logic goes; height, body type, photo,
      interests and distance are only displayed. */
  datatype Profile = Profile(id: string, username: string, name: string, age: nat, city: string, isFavorite: bool)

  const InitialProfiles: seq<Profile> := [
    Profile("1", "@RenaBlu", "Rena", 31, "Paris", true),
    Profile("2", "@JoannaK", "Joanna", 31, "Paris", true),
    Profile("3", "@MariahDoha", "Mariah", 31, "Paris", true),
    Profile("4", "@BrunaMachado", "Bruna", 31, "Paris", false),
    Profile("5", "@MarcelleSilva", "Marcelle", 31, "Lyon", false),
    Profile("6", "@MonicaLourh", "Monica", 31, "Marseille", false),
    Profile("7", "@BellaRouge", "Bella", 31, "Bordeaux", false),
    Profile("8", "@SofiaLuna", "Sofia", 28, "Nice", false)
  ]

  /** `handleFavoriteToggle`'s update: the profiles with this id flip their
      favourite mark; everything else stays. */
  function FavoriteToggled(profiles: seq<Profile>, id: string): (r: seq<Profile>)
    ensures |r| == |profiles|
    ensures forall i :: 0 <= i < |r| ==>
      r[i] == if profiles[i].id == id then profiles[i].(isFavorite := !profiles[i].isFavorite) else profiles[i]
  {
    if profiles == [] then []
    else
      var head := if profiles[0].id == id then profiles[0].(isFavorite := !profiles[0].isFavorite) else profiles[0];
      [head] + FavoriteToggled(profiles[1..], id)
  }

  /** Toggling the same profile twice gives the list back. */
  lemma FavoriteToggleInvolution(profiles: seq<Profile>, id: string)
    ensures FavoriteToggled(FavoriteToggled(profiles, id), id) == profiles
  {
  }

  predicate IsFavorite(p: Profile) { p.isFavorite }

  /** `filteredProfiles`: the favourites, in their order, for the
      favourites view; every profile otherwise. */
  function FilteredProfiles(view: ViewType, profiles: seq<Profile>): (r: seq<Profile>)
    ensures view != Favorites ==> r == profiles
    ensures view == Favorites ==> forall i :: 0 <= i < |r| ==> r[i].isFavorite && r[i] in profiles
    ensures view == Favorites ==> forall i :: 0 <= i < |profiles| && profiles[i].isFavorite ==> profiles[i] in r
  {
    if view == Favorites then Seqs.Filter(IsFavorite, profiles) else profiles
  }

  /** The favourites view keeps the order of the list: it distributes over
      any split of it. */
  lemma FavoritesKeepOrder(a: seq<Profile>, b: seq<Profile>)
    ensures FilteredProfiles(Favorites, a + b) == FilteredProfiles(Favorites, a) + FilteredProfiles(Favorites, b)
  {
    Seqs.FilterAppend(IsFavorite, a, b);
  }

  /** When exactly the first `k` profiles are favourites, the favourites
      view is that prefix. */
  lemma FavoritesOfPrefix(ps: seq<Profile>, k: nat)
    requires k <= |ps|
    requires forall i :: 0 <= i < |ps| ==> (ps[i].isFavorite <==> i < k)
    ensures FilteredProfiles(Favorites, ps) == ps[..k]
  {
    assert forall i :: 0 <= i < |ps[k..]| ==> !IsFavorite(ps[k..][i]);
    assert forall i :: 0 <= i < k ==> IsFavorite(ps[..k][i]);
    Seqs.FilterAppend(IsFavorite, ps[..k], ps[k..]);
    assert ps == ps[..k] + ps[k..];
  }

  /** The initial data: eight profiles, the first three of them favourites. */
  lemma InitialFavorites()
    ensures |InitialProfiles| == 8
    ensures FilteredProfiles(Favorites, InitialProfiles) == InitialProfiles[..3]
  {
    FavoritesOfPrefix(InitialProfiles, 3);
  }

  class ProfilesScreen {
    /** Nothing in the screen changes the view type after it starts. */
    var viewType: ViewType
    var profiles: seq<Profile>

    constructor ()
      ensures viewType == List && profiles == InitialProfiles
    {
      viewType := List;
      profiles := InitialProfiles;
    }

    /** `handleFavoriteToggle` */
    method FavoriteToggle(id: string)
      modifies this
      ensures profiles == FavoriteToggled(old(profiles), id) && viewType == old(viewType)
    {
      profiles := FavoriteToggled(profiles, id);
    }

    /** The profiles the screen lists. */
    method Shown() returns (shown: seq<Profile>)
      ensures shown == FilteredProfiles(viewType, profiles)
      ensures viewType == List ==> shown == profiles
    {
      shown := FilteredProfiles(viewType, profiles);
    }
  }
}
