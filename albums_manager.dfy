/**
 * The album administration screen: album and photo lists with drag-and-drop reordering,
 * album and photo creation (typed URL or uploaded file), album deletion.
 *
 * Store calls are oracles: a method receives the answer the store gave (`upload` is what
 * `uploadImage` resolved to, `Err` when it threw; `writeOk` says whether the row write
 * reported no error) and returns the write it sent.
 */
module AlbumsManager {
  import opened Wrappers
  import opened Reorder

  datatype Album = Album(id: string, title: string, coverImageUrl: string, orderIndex: int)
  datatype AlbumPhoto = AlbumPhoto(id: string, albumId: string, photoUrl: string, orderIndex: int)

  datatype UploadMethod = ByUrl | ByFile
  datatype File = File(name: string)
  datatype AlbumForm = AlbumForm(title: string, coverImageUrl: string)

  const EmptyAlbumForm := AlbumForm("", "")

  /** The album row write sent on submit. */
  datatype AlbumWrite =
    | UpdateAlbum(id: string, title: string, coverImageUrl: string)
    | InsertAlbum(title: string, coverImageUrl: string, orderIndex: nat)

  /** The photo row inserted on submit. */
  datatype PhotoInsert = PhotoInsert(albumId: string, photoUrl: string, orderIndex: nat)

  function AlbumKey(a: Album): string { a.id }
  function PhotoKey(p: AlbumPhoto): string { p.id }

  /** A string id is set when present and non-empty. */
  predicate IsSet(id: Option<string>) {
    id.Some? && id.value != ""
  }

  /** Whether submitting uploads the chosen file rather than storing the typed URL. */
  predicate UsesUpload(how: UploadMethod, file: Option<File>) {
    how == ByFile && file.Some?
  }

  class Manager {
    var albums: seq<Album>
    var photos: seq<AlbumPhoto>
    var selectedAlbumId: Option<string>
    var editingAlbum: Option<Album>
    var albumForm: AlbumForm
    var photoUrlInput: string
    var albumUploadMethod: UploadMethod
    var photoUploadMethod: UploadMethod
    var albumFile: Option<File>
    var photoFile: Option<File>
    var uploading: bool
    var draggedPhotoId: Option<string>
    var draggedAlbumId: Option<string>
    var showAlbumModal: bool
    var showPhotoModal: bool
    /** How many error alerts have been shown. */
    var alerts: nat

    constructor()
      ensures albums == [] && photos == [] && selectedAlbumId == None && editingAlbum == None
      ensures albumForm == EmptyAlbumForm && photoUrlInput == ""
      ensures albumUploadMethod == ByUrl && photoUploadMethod == ByUrl
      ensures albumFile == None && photoFile == None && !uploading
      ensures draggedPhotoId == None && draggedAlbumId == None
      ensures !showAlbumModal && !showPhotoModal && alerts == 0
    {
      albums, photos := [], [];
      selectedAlbumId, editingAlbum := None, None;
      albumForm, photoUrlInput := EmptyAlbumForm, "";
      albumUploadMethod, photoUploadMethod := ByUrl, ByUrl;
      albumFile, photoFile := None, None;
      uploading := false;
      draggedPhotoId, draggedAlbumId := None, None;
      showAlbumModal, showPhotoModal := false, false;
      alerts := 0;
    }

    method StartPhotoDrag(id: string)
      modifies this`draggedPhotoId
      ensures draggedPhotoId == Some(id)
    {
      draggedPhotoId := Some(id);
    }

    method StartAlbumDrag(id: string)
      modifies this`draggedAlbumId
      ensures draggedAlbumId == Some(id)
    {
      draggedAlbumId := Some(id);
    }

    /**
     * `handlePhotoDrop`: returns the index writes sent. A drop with no drag or onto the
     * dragged photo only clears the drag id; an id missing from the list returns with
     * the list and the drag id untouched; otherwise the photo list becomes the moved
     * list, every photo gets its position written, and the drag id is cleared.
     */
    method HandlePhotoDrop(target: string) returns (writes: seq<OrderWrite>)
      modifies this`photos, this`draggedPhotoId
      ensures NoMove(old(draggedPhotoId), target) ==>
        draggedPhotoId == None && photos == old(photos) && writes == []
      ensures Drop(old(photos), PhotoKey, old(draggedPhotoId), target).Ignored? ==>
        draggedPhotoId == old(draggedPhotoId) && photos == old(photos) && writes == []
      ensures Drop(old(photos), PhotoKey, old(draggedPhotoId), target).Reordered? ==>
        && photos == Drop(old(photos), PhotoKey, old(draggedPhotoId), target).list
        && writes == OrderWrites(photos, PhotoKey)
        && draggedPhotoId == None
    {
      writes := [];
      match Drop(photos, PhotoKey, draggedPhotoId, target)
      case ClearDragOnly =>
        draggedPhotoId := None;
      case Ignored =>
      case Reordered(list, w) =>
        photos := list;
        writes := w;
        draggedPhotoId := None;
    }

    /** `handleAlbumDrop`: the same rule over the album list. */
    method HandleAlbumDrop(target: string) returns (writes: seq<OrderWrite>)
      modifies this`albums, this`draggedAlbumId
      ensures NoMove(old(draggedAlbumId), target) ==>
        draggedAlbumId == None && albums == old(albums) && writes == []
      ensures Drop(old(albums), AlbumKey, old(draggedAlbumId), target).Ignored? ==>
        draggedAlbumId == old(draggedAlbumId) && albums == old(albums) && writes == []
      ensures Drop(old(albums), AlbumKey, old(draggedAlbumId), target).Reordered? ==>
        && albums == Drop(old(albums), AlbumKey, old(draggedAlbumId), target).list
        && writes == OrderWrites(albums, AlbumKey)
        && draggedAlbumId == None
    {
      writes := [];
      match Drop(albums, AlbumKey, draggedAlbumId, target)
      case ClearDragOnly =>
        draggedAlbumId := None;
      case Ignored =>
      case Reordered(list, w) =>
        albums := list;
        writes := w;
        draggedAlbumId := None;
    }

    /**
     * `handleAlbumSubmit`. The cover URL is the uploaded file's URL in file mode with a
     * file chosen, else the typed URL. A failed upload sends nothing and raises an alert.
     * Otherwise an edit updates the edited album and a creation inserts at
     * `order_index = albums.length`; a write without error closes the dialog and resets
     * the form, the file and the edited album. `uploading` ends cleared.
     */
    method HandleAlbumSubmit(upload: Result<string>, writeOk: bool) returns (write: Option<AlbumWrite>)
      modifies this`uploading, this`alerts, this`showAlbumModal, this`editingAlbum,
        this`albumForm, this`albumFile
      ensures !uploading
      ensures UsesUpload(old(albumUploadMethod), old(albumFile)) && upload.Err? ==>
        && write.None? && alerts == old(alerts) + 1
        && showAlbumModal == old(showAlbumModal) && editingAlbum == old(editingAlbum)
        && albumForm == old(albumForm) && albumFile == old(albumFile)
      ensures !(UsesUpload(old(albumUploadMethod), old(albumFile)) && upload.Err?) ==>
        var url := if UsesUpload(old(albumUploadMethod), old(albumFile)) then upload.value
          else old(albumForm).coverImageUrl;
        && alerts == old(alerts)
        && write == Some(
          if old(editingAlbum).Some? then UpdateAlbum(old(editingAlbum).value.id, old(albumForm).title, url)
          else InsertAlbum(old(albumForm).title, url, |albums|))
        && (writeOk ==>
          !showAlbumModal && editingAlbum.None? && albumForm == EmptyAlbumForm && albumFile.None?)
        && (!writeOk ==>
          showAlbumModal == old(showAlbumModal) && editingAlbum == old(editingAlbum) &&
          albumForm == old(albumForm) && albumFile == old(albumFile))
    {
      uploading := true;
      var url := albumForm.coverImageUrl;
      if UsesUpload(albumUploadMethod, albumFile) {
        if upload.Err? {
          alerts := alerts + 1;
          uploading := false;
          return None;
        }
        url := upload.value;
      }
      if editingAlbum.Some? {
        write := Some(UpdateAlbum(editingAlbum.value.id, albumForm.title, url));
        if writeOk {
          showAlbumModal := false;
          editingAlbum := None;
          albumForm := EmptyAlbumForm;
          albumFile := None;
        }
      } else {
        write := Some(InsertAlbum(albumForm.title, url, |albums|));
        if writeOk {
          showAlbumModal := false;
          albumForm := EmptyAlbumForm;
          albumFile := None;
        }
      }
      uploading := false;
    }

    /**
     * `handlePhotoSubmit`. With no album selected it returns before anything else and
     * leaves `uploading` set. Otherwise the URL rule and the upload-failure path are
     * those of album submission, and the photo is inserted into the selected album at
     * `order_index = photos.length`.
     */
    method HandlePhotoSubmit(upload: Result<string>, writeOk: bool) returns (insert: Option<PhotoInsert>)
      modifies this`uploading, this`alerts, this`showPhotoModal, this`photoUrlInput, this`photoFile
      ensures !IsSet(selectedAlbumId) ==>
        insert.None? && uploading && alerts == old(alerts) &&
        showPhotoModal == old(showPhotoModal) && photoUrlInput == old(photoUrlInput) &&
        photoFile == old(photoFile)
      ensures IsSet(selectedAlbumId) ==> !uploading
      ensures IsSet(selectedAlbumId) && UsesUpload(photoUploadMethod, old(photoFile)) && upload.Err? ==>
        insert.None? && alerts == old(alerts) + 1 &&
        showPhotoModal == old(showPhotoModal) && photoUrlInput == old(photoUrlInput) &&
        photoFile == old(photoFile)
      ensures IsSet(selectedAlbumId) && !(UsesUpload(photoUploadMethod, old(photoFile)) && upload.Err?) ==>
        var url := if UsesUpload(photoUploadMethod, old(photoFile)) then upload.value else old(photoUrlInput);
        && alerts == old(alerts)
        && insert == Some(PhotoInsert(selectedAlbumId.value, url, |photos|))
        && (writeOk ==> !showPhotoModal && photoUrlInput == "" && photoFile.None?)
        && (!writeOk ==>
          showPhotoModal == old(showPhotoModal) && photoUrlInput == old(photoUrlInput) &&
          photoFile == old(photoFile))
    {
      uploading := true;
      if !IsSet(selectedAlbumId) {
        return None;
      }
      var url := photoUrlInput;
      if UsesUpload(photoUploadMethod, photoFile) {
        if upload.Err? {
          alerts := alerts + 1;
          uploading := false;
          return None;
        }
        url := upload.value;
      }
      insert := Some(PhotoInsert(selectedAlbumId.value, url, |photos|));
      if writeOk {
        showPhotoModal := false;
        photoUrlInput := "";
        photoFile := None;
      }
      uploading := false;
    }

    /**
     * `handleDeleteAlbum`: the delete is sent only when confirmed. When it succeeds and
     * the deleted album was the selected one, the selection and the photo list are
     * cleared; any other outcome leaves both alone.
     */
    method HandleDeleteAlbum(id: string, confirmed: bool, deleteOk: bool) returns (deleteSent: bool)
      modifies this`selectedAlbumId, this`photos
      ensures deleteSent == confirmed
      ensures confirmed && deleteOk && old(selectedAlbumId) == Some(id) ==>
        selectedAlbumId.None? && photos == []
      ensures !(confirmed && deleteOk && old(selectedAlbumId) == Some(id)) ==>
        selectedAlbumId == old(selectedAlbumId) && photos == old(photos)
    {
      deleteSent := confirmed;
      if confirmed && deleteOk && selectedAlbumId == Some(id) {
        selectedAlbumId := None;
        photos := [];
      }
    }

    /** `handleEditAlbum`: the form is filled from the album and the dialog opens. */
    method HandleEditAlbum(album: Album)
      modifies this`editingAlbum, this`albumForm, this`showAlbumModal
      ensures editingAlbum == Some(album) && showAlbumModal
      ensures albumForm == AlbumForm(album.title, album.coverImageUrl)
    {
      editingAlbum := Some(album);
      albumForm := AlbumForm(album.title, album.coverImageUrl);
      showAlbumModal := true;
    }

    /** A reload of the album list answered by the store; an error keeps the list. */
    method AlbumsLoaded(rows: Option<seq<Album>>)
      modifies this`albums
      ensures albums == if rows.Some? then rows.value else old(albums)
    {
      if rows.Some? {
        albums := rows.value;
      }
    }

    /** A reload of the selected album's photos answered by the store; an error keeps the list. */
    method PhotosLoaded(rows: Option<seq<AlbumPhoto>>)
      modifies this`photos
      ensures photos == if rows.Some? then rows.value else old(photos)
    {
      if rows.Some? {
        photos := rows.value;
      }
    }
  }
}
