/** The photo gallery editor: up to six photos, one of which is the main
    photo. Adding only opens a source chooser; deleting the main photo is
    refused while other photos remain; choosing a main photo marks exactly
    the photos with that id. */
module EditProfilePhotos {
  import opened Wrappers
  import opened Toast
  import Seqs

  datatype Photo = Photo(id: string, uri: string, isMain: bool)

  const MaxPhotos := 6
  const MainUpdated := "Photo principale mise à jour !"
  const PhotosSaved := "Photos sauvegardées avec succès !"

  const InitialPhotos: seq<Photo> := [
    Photo("1", "https://images.unsplash.com/photo-1472099645785-5658abf4ff4e?w=300&h=300&fit=crop&crop=face", true),
    Photo("2", "https://images.unsplash.com/photo-1507003211169-0a1dd7228f2d?w=300&h=300&fit=crop&crop=face", false),
    Photo("3", "https://images.unsplash.com/photo-1500648767791-00dcc994a43e?w=300&h=300&fit=crop&crop=face", false)
  ]

  /** What pressing the add slot leads to: the limit alert, or the
      camera/gallery chooser. Neither changes the list. */
  datatype AddOutcome = LimitReached | ChooseSource

  /** The number of photos marked main. */
  function MainCount(photos: seq<Photo>): (n: nat)
    ensures n <= |photos|
  {
    if photos == [] then 0
    else (if photos[0].isMain then 1 else 0) + MainCount(photos[1..])
  }

  /** The number of photos with this id. */
  function IdCount(photos: seq<Photo>, id: string): (n: nat)
    ensures n <= |photos|
    ensures n == 0 <==> forall i :: 0 <= i < |photos| ==> photos[i].id != id
  {
    if photos == [] then 0
    else (if photos[0].id == id then 1 else 0) + IdCount(photos[1..], id)
  }

  predicate IdsUnique(photos: seq<Photo>)
  {
    forall i, j :: 0 <= i < j < |photos| ==> photos[i].id != photos[j].id
  }

  /** `handleAddPhoto`'s guard. */
  function AddOutcomeFor(photos: seq<Photo>): (r: AddOutcome)
    ensures r == LimitReached <==> |photos| >= MaxPhotos
  {
    if |photos| >= MaxPhotos then LimitReached else ChooseSource
  }

  /** The add slot is rendered only below the limit, so a press on it
      always reaches the chooser. */
  predicate AddSlotVisible(photos: seq<Photo>)
  {
    |photos| < MaxPhotos
  }

  /** Index `i` holds the first photo with this id. */
  predicate FirstWithId(photos: seq<Photo>, id: string, i: int)
  {
    0 <= i < |photos| && photos[i].id == id && forall k :: 0 <= k < i ==> photos[k].id != id
  }

  /** `photos.find(p => p.id === photoId)` */
  function FindPhoto(photos: seq<Photo>, id: string): (r: Option<Photo>)
    ensures r.None? <==> forall i :: 0 <= i < |photos| ==> photos[i].id != id
    ensures r.Some? ==> exists i :: FirstWithId(photos, id, i) && photos[i] == r.value
  {
    if photos == [] then None
    else if photos[0].id == id then Some(photos[0])
    else
      var r := FindPhoto(photos[1..], id);
      if r.Some? then
        var i :| FirstWithId(photos[1..], id, i) && photos[1..][i] == r.value;
        assert FirstWithId(photos, id, i + 1) && photos[i + 1] == r.value;
        r
      else r
  }

  /** `handleDeletePhoto`'s guard: the first photo with this id is the main
      photo and it is not the only photo. */
  predicate DeleteRefused(photos: seq<Photo>, id: string)
  {
    var found := FindPhoto(photos, id);
    found.Some? && found.value.isMain && |photos| > 1
  }

  /** `prev.map(photo => ({...photo, isMain: photo.id === photoId}))` */
  function WithMain(photos: seq<Photo>, id: string): (r: seq<Photo>)
    ensures |r| == |photos|
    ensures forall i :: 0 <= i < |r| ==>
      r[i].id == photos[i].id && r[i].uri == photos[i].uri && (r[i].isMain <==> photos[i].id == id)
  {
    if photos == [] then []
    else [photos[0].(isMain := photos[0].id == id)] + WithMain(photos[1..], id)
  }

  /** `prev.filter(p => p.id !== photoId)` */
  function WithoutPhoto(photos: seq<Photo>, id: string): (r: seq<Photo>)
    ensures |r| <= |photos|
    ensures forall i :: 0 <= i < |r| ==> r[i].id != id && r[i] in photos
    ensures forall i :: 0 <= i < |photos| && photos[i].id != id ==> photos[i] in r
  {
    Seqs.Filter((p: Photo) => p.id != id, photos)
  }

  /** After set-main, the number of main photos is the number of photos
      carrying that id. */
  lemma {:induction false} MainCountWithMain(photos: seq<Photo>, id: string)
    ensures MainCount(WithMain(photos, id)) == IdCount(photos, id)
  {
    if photos != [] {
      MainCountWithMain(photos[1..], id);
      assert WithMain(photos, id)[1..] == WithMain(photos[1..], id);
    }
  }

  lemma {:induction false} IdCountUnique(photos: seq<Photo>, id: string)
    requires IdsUnique(photos)
    ensures IdCount(photos, id) <= 1
  {
    if photos != [] {
      IdCountUnique(photos[1..], id);
      if photos[0].id == id {
        assert forall i :: 0 <= i < |photos[1..]| ==> photos[1..][i].id != id by {
          forall i | 0 <= i < |photos[1..]| ensures photos[1..][i].id != id {
            assert photos[1..][i] == photos[i + 1];
          }
        }
      }
    }
  }

  /** Choosing a main photo among photos with distinct ids leaves exactly one
      main photo when the id is present and none when it is not. */
  lemma SetMainCount(photos: seq<Photo>, id: string)
    requires IdsUnique(photos)
    ensures MainCount(WithMain(photos, id)) == if exists i :: 0 <= i < |photos| && photos[i].id == id then 1 else 0
  {
    MainCountWithMain(photos, id);
    IdCountUnique(photos, id);
  }

  /** A confirmed delete never adds a main photo. */
  lemma {:induction false} DeleteKeepsMainBound(photos: seq<Photo>, id: string)
    ensures MainCount(WithoutPhoto(photos, id)) <= MainCount(photos)
  {
    if photos != [] {
      DeleteKeepsMainBound(photos[1..], id);
    }
  }

  /** A confirmed delete keeps ids distinct. */
  lemma {:induction false} DeleteKeepsIdsUnique(photos: seq<Photo>, id: string)
    requires IdsUnique(photos)
    ensures IdsUnique(WithoutPhoto(photos, id))
  {
    if photos != [] {
      var tail := photos[1..];
      assert IdsUnique(tail) by {
        forall i, j | 0 <= i < j < |tail| ensures tail[i].id != tail[j].id {
          assert tail[i] == photos[i + 1] && tail[j] == photos[j + 1];
        }
      }
      DeleteKeepsIdsUnique(tail, id);
      if photos[0].id != id {
        var rest := WithoutPhoto(tail, id);
        assert WithoutPhoto(photos, id) == [photos[0]] + rest;
        forall k | 0 <= k < |rest| ensures rest[k].id != photos[0].id {
          var j :| 0 <= j < |tail| && tail[j] == rest[k];
          assert photos[j + 1] == rest[k];
        }
        ConsKeepsIdsUnique(photos[0], rest);
      }
    }
  }

  lemma ConsKeepsIdsUnique(p: Photo, rest: seq<Photo>)
    requires IdsUnique(rest) && forall k :: 0 <= k < |rest| ==> rest[k].id != p.id
    ensures IdsUnique([p] + rest)
  {
    var r := [p] + rest;
    forall i, j | 0 <= i < j < |r| ensures r[i].id != r[j].id {
      assert r[j] == rest[j - 1];
      if i > 0 {
        assert r[i] == rest[i - 1];
      }
    }
  }

  /** Delete keeps the surviving photos in their order: it distributes over
      any split of the gallery. */
  lemma DeleteKeepsOrder(a: seq<Photo>, b: seq<Photo>, id: string)
    ensures WithoutPhoto(a + b, id) == WithoutPhoto(a, id) + WithoutPhoto(b, id)
  {
    Seqs.FilterAppend((p: Photo) => p.id != id, a, b);
  }

  /** A gallery whose only photo is the main photo can be emptied. */
  lemma SoleMainDeleted(p: Photo)
    requires p.isMain
    ensures !DeleteRefused([p], p.id) && WithoutPhoto([p], p.id) == []
  {
  }

  /** Set-main keeps ids distinct. */
  lemma SetMainKeepsIdsUnique(photos: seq<Photo>, id: string)
    requires IdsUnique(photos)
    ensures IdsUnique(WithMain(photos, id))
  {
  }

  /** The initial gallery: three photos with distinct ids, the first main. */
  lemma InitialGallery()
    ensures |InitialPhotos| == 3 && MainCount(InitialPhotos) == 1 && IdsUnique(InitialPhotos)
    ensures InitialPhotos[0].isMain && AddSlotVisible(InitialPhotos)
  {
    assert InitialPhotos[1..] == InitialPhotos[1..][..];
    assert MainCount(InitialPhotos[1..]) == 0 by {
      assert InitialPhotos[1..][1..][1..] == [];
    }
  }

  /** The only photo may be deleted even when it is the main photo; with
      other photos present the main photo may not. */
  lemma DeleteMainGuard(photos: seq<Photo>, i: nat)
    requires i < |photos| && photos[i].isMain
    requires forall k :: 0 <= k < i ==> photos[k].id != photos[i].id
    ensures DeleteRefused(photos, photos[i].id) <==> |photos| > 1
  {
    var found := FindPhoto(photos, photos[i].id);
    var j :| FirstWithId(photos, photos[i].id, j) && photos[j] == found.value;
    assert j == i;
  }

  class PhotoEditor {
    var photos: seq<Photo>
    var toast: ToastState
    /** The id of the open "Supprimer la photo" confirmation, if any. */
    var pendingDelete: Option<string>

    /** Photos have distinct ids, at most one is main, and there are at most six. */
    ghost predicate Valid()
      reads this
    {
      IdsUnique(photos) && MainCount(photos) <= 1 && |photos| <= MaxPhotos
    }

    constructor ()
      ensures Valid() && photos == InitialPhotos && MainCount(photos) == 1
      ensures toast == Hidden && pendingDelete == None
    {
      photos := InitialPhotos;
      toast := Hidden;
      pendingDelete := None;
      InitialGallery();
    }

    /** `handleAddPhoto`: the limit alert at six photos, else the chooser;
        the list is never changed. */
    method AddPhoto() returns (outcome: AddOutcome)
      ensures outcome == LimitReached <==> |photos| >= MaxPhotos
      ensures AddSlotVisible(photos) ==> outcome == ChooseSource
    {
      outcome := AddOutcomeFor(photos);
    }

    /** `handleDeletePhoto`: refused with an alert when the photo is the
        main one and others remain; otherwise the confirmation opens. */
    method RequestDelete(id: string) returns (refused: bool)
      modifies this
      ensures refused == DeleteRefused(old(photos), id)
      ensures photos == old(photos) && toast == old(toast)
      ensures pendingDelete == if refused then old(pendingDelete) else Some(id)
    {
      refused := DeleteRefused(photos, id);
      if !refused {
        pendingDelete := Some(id);
      }
    }

    /** The confirmation's "Supprimer": every photo with the pending id is
        removed, the others stay in order. "Annuler" is `CancelDelete`. */
    method ConfirmDelete()
      requires Valid()
      modifies this
      ensures Valid() && toast == old(toast) && pendingDelete == None
      ensures photos == if old(pendingDelete).Some? then WithoutPhoto(old(photos), old(pendingDelete).value) else old(photos)
      ensures MainCount(photos) <= MainCount(old(photos))
    {
      if pendingDelete.Some? {
        DeleteKeepsMainBound(photos, pendingDelete.value);
        DeleteKeepsIdsUnique(photos, pendingDelete.value);
        photos := WithoutPhoto(photos, pendingDelete.value);
      }
      pendingDelete := None;
    }

    method CancelDelete()
      modifies this
      ensures photos == old(photos) && toast == old(toast) && pendingDelete == None
    {
      pendingDelete := None;
    }

    /** `handleSetMainPhoto`: the photos with this id become main and all
        others stop being main; a success toast is shown. */
    method SetMainPhoto(id: string)
      requires Valid()
      modifies this
      ensures Valid() && photos == WithMain(old(photos), id) && pendingDelete == old(pendingDelete)
      ensures toast == Shown(MainUpdated, Success)
      ensures MainCount(photos) == if exists i :: 0 <= i < |old(photos)| && old(photos)[i].id == id then 1 else 0
    {
      SetMainCount(photos, id);
      SetMainKeepsIdsUnique(photos, id);
      photos := WithMain(photos, id);
      toast := Shown(MainUpdated, Success);
    }

    /** `handleSave`: the success toast; the navigation back is not modelled. */
    method Save()
      modifies this
      ensures photos == old(photos) && pendingDelete == old(pendingDelete)
      ensures toast == Shown(PhotosSaved, Success)
    {
      toast := Shown(PhotosSaved, Success);
    }
  }
}
