/**
 * The portfolio administration page: the sign-in gate, portfolio image creation and
 * editing (typed URL or uploaded file), and drag-and-drop reordering of the images.
 * Store answers are oracles passed to the methods, as in the album screen.
 */
module Admin {
  import opened Wrappers
  import opened Reorder

  datatype PortfolioImage = PortfolioImage(
    id: string,
    title: string,
    description: Option<string>,
    imageUrl: string,
    category: string,
    orderIndex: int)

  datatype UploadMethod = ByUrl | ByFile
  datatype File = File(name: string)

  datatype UploadForm = UploadForm(title: string, description: string, imageUrl: string, category: string)

  /** The blank form: empty fields, category `portfolio`. */
  const EmptyForm := UploadForm("", "", "", "portfolio")

  /** The image row write sent on submit. */
  datatype ImageWrite =
    | UpdateImage(id: string, title: string, description: string, imageUrl: string, category: string)
    | InsertImage(title: string, description: string, imageUrl: string, category: string, orderIndex: nat)

  function ImageKey(i: PortfolioImage): string { i.id }

  /** The form filled from an image; a missing description becomes the empty string. */
  function FormFor(image: PortfolioImage): (f: UploadForm)
    ensures f.description == (if image.description.Some? then image.description.value else "")
    ensures f.title == image.title && f.imageUrl == image.imageUrl && f.category == image.category
  {
    UploadForm(image.title, image.description.GetOr(""), image.imageUrl, image.category)
  }

  class Page {
    var images: seq<PortfolioImage>
    var loading: bool
    /** Where the page has navigated to, if anywhere. */
    var navigatedTo: Option<string>
    var showUploadModal: bool
    var uploadForm: UploadForm
    var editingImage: Option<PortfolioImage>
    var uploadMethod: UploadMethod
    var imageFile: Option<File>
    var uploading: bool
    var draggedImageId: Option<string>
    /** How many error alerts have been shown. */
    var alerts: nat

    constructor()
      ensures images == [] && loading && navigatedTo == None && !showUploadModal
      ensures uploadForm == EmptyForm && editingImage == None && uploadMethod == ByUrl
      ensures imageFile == None && !uploading && draggedImageId == None && alerts == 0
    {
      images := [];
      loading := true;
      navigatedTo := None;
      showUploadModal := false;
      uploadForm := EmptyForm;
      editingImage := None;
      uploadMethod := ByUrl;
      imageFile := None;
      uploading := false;
      draggedImageId := None;
      alerts := 0;
    }

    /**
     * The effect on the signed-in user: without one the page goes to `/login` and loads
     * nothing; with one it starts loading the images.
     */
    method OnUser(signedIn: bool)
      modifies this`navigatedTo, this`loading
      ensures !signedIn ==> navigatedTo == Some("/login") && loading == old(loading)
      ensures signedIn ==> navigatedTo == old(navigatedTo) && loading
    {
      if !signedIn {
        navigatedTo := Some("/login");
      } else {
        loading := true;
      }
    }

    /** The image query answered; an error keeps the list. Loading ends either way. */
    method ImagesLoaded(rows: Option<seq<PortfolioImage>>)
      modifies this`images, this`loading
      ensures images == (if rows.Some? then rows.value else old(images)) && !loading
    {
      if rows.Some? {
        images := rows.value;
      }
      loading := false;
    }

    /**
     * `handleDelete`: the delete of image `id` is sent only when confirmed, and a delete
     * without error reloads the list.
     */
    method HandleDelete(id: string, confirmed: bool, deleteOk: bool) returns (deleted: Option<string>)
      modifies this`loading
      ensures deleted == (if confirmed then Some(id) else None)
      ensures loading == (if confirmed && deleteOk then true else old(loading))
    {
      deleted := None;
      if confirmed {
        deleted := Some(id);
        if deleteOk {
          loading := true;
        }
      }
    }

    /** `handleEdit`: the image becomes the edited one, the form is filled, the dialog opens. */
    method HandleEdit(image: PortfolioImage)
      modifies this`editingImage, this`uploadForm, this`showUploadModal
      ensures editingImage == Some(image) && uploadForm == FormFor(image) && showUploadModal
    {
      editingImage := Some(image);
      uploadForm := FormFor(image);
      showUploadModal := true;
    }

    /** The "add image" button: no image is edited, the form is blank, the dialog opens. */
    method OpenNewImage()
      modifies this`editingImage, this`uploadForm, this`showUploadModal
      ensures editingImage == None && uploadForm == EmptyForm && showUploadModal
    {
      editingImage := None;
      uploadForm := EmptyForm;
      showUploadModal := true;
    }

    /** The dialog's close button ends the edit but keeps what was typed in the form. */
    method CloseDialog()
      modifies this`editingImage, this`showUploadModal
      ensures editingImage == None && !showUploadModal
    {
      editingImage := None;
      showUploadModal := false;
    }

    method StartDrag(id: string)
      modifies this`draggedImageId
      ensures draggedImageId == Some(id)
    {
      draggedImageId := Some(id);
    }

    /**
     * `handleImageDrop`: the drop rule of the reorder module over the image list, with the
     * index writes sent for every image.
     */
    method HandleImageDrop(target: string) returns (writes: seq<OrderWrite>)
      modifies this`images, this`draggedImageId
      ensures NoMove(old(draggedImageId), target) ==>
        draggedImageId == None && images == old(images) && writes == []
      ensures Drop(old(images), ImageKey, old(draggedImageId), target).Ignored? ==>
        draggedImageId == old(draggedImageId) && images == old(images) && writes == []
      ensures Drop(old(images), ImageKey, old(draggedImageId), target).Reordered? ==>
        && images == Drop(old(images), ImageKey, old(draggedImageId), target).list
        && writes == OrderWrites(images, ImageKey)
        && draggedImageId == None
    {
      writes := [];
      match Drop(images, ImageKey, draggedImageId, target)
      case ClearDragOnly =>
        draggedImageId := None;
      case Ignored =>
      case Reordered(list, w) =>
        images := list;
        writes := w;
        draggedImageId := None;
    }

    /**
     * `handleSubmit`. The image URL is the uploaded file's URL in file mode with a file
     * chosen, else the typed URL. An upload failure writes nothing, raises an alert and
     * leaves the form as it was. Otherwise an edit updates the edited image and a
     * creation inserts at `order_index = images.length`; a write without error closes the
     * dialog, resets the form (category `portfolio`) and the file, ends the edit and
     * reloads the list. `uploading` ends cleared.
     */
    method HandleSubmit(upload: Result<string>, writeOk: bool) returns (write: Option<ImageWrite>)
      modifies this`uploading, this`alerts, this`showUploadModal, this`editingImage,
        this`uploadForm, this`imageFile, this`loading
      ensures !uploading
      ensures old(uploadMethod) == ByFile && old(imageFile).Some? && upload.Err? ==>
        && write.None? && alerts == old(alerts) + 1
        && showUploadModal == old(showUploadModal) && editingImage == old(editingImage)
        && uploadForm == old(uploadForm) && imageFile == old(imageFile) && loading == old(loading)
      ensures !(old(uploadMethod) == ByFile && old(imageFile).Some? && upload.Err?) ==>
        var url := if old(uploadMethod) == ByFile && old(imageFile).Some? then upload.value
          else old(uploadForm).imageUrl;
        var f := old(uploadForm);
        && alerts == old(alerts)
        && write == Some(
          if old(editingImage).Some? then UpdateImage(old(editingImage).value.id, f.title, f.description, url, f.category)
          else InsertImage(f.title, f.description, url, f.category, |images|))
        && (writeOk ==>
          !showUploadModal && editingImage.None? && uploadForm == EmptyForm && imageFile.None? && loading)
        && (!writeOk ==>
          showUploadModal == old(showUploadModal) && editingImage == old(editingImage) &&
          uploadForm == old(uploadForm) && imageFile == old(imageFile) && loading == old(loading))
    {
      uploading := true;
      var url := uploadForm.imageUrl;
      if uploadMethod == ByFile && imageFile.Some? {
        if upload.Err? {
          alerts := alerts + 1;
          uploading := false;
          return None;
        }
        url := upload.value;
      }
      var f := uploadForm;
      if editingImage.Some? {
        write := Some(UpdateImage(editingImage.value.id, f.title, f.description, url, f.category));
        if writeOk {
          loading := true;
          showUploadModal := false;
          editingImage := None;
          uploadForm := EmptyForm;
          imageFile := None;
        }
      } else {
        write := Some(InsertImage(f.title, f.description, url, f.category, |images|));
        if writeOk {
          loading := true;
          showUploadModal := false;
          uploadForm := EmptyForm;
          imageFile := None;
        }
      }
      uploading := false;
    }
  }
}
