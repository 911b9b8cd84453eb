/** The gallery object: its audio mute state, the preview overlay and the
    gallery content it builds from the manifest. */
module Gallery {
  import opened Layout
  import opened Preview

  /** The two markups the audio icon switches between. */
  datatype AudioIcon = SoundOn | SoundOff

  /** The icon that shows a given mute state. */
  function IconFor(muted: bool): (icon: AudioIcon)
    ensures icon == SoundOff <==> muted
  {
    if muted then SoundOff else SoundOn
  }

  /** Outcome of fetching and parsing the manifest: its list of images, or
      the message of the error that stopped it. */
  datatype FetchResult = Fetched(images: seq<ImageSource>) | FetchFailed(message: string)

  /** What the gallery container shows. */
  datatype GalleryContent =
    | NotLoaded
    | Scrolling(groups: seq<seq<ImageSource>>, durationSeconds: nat)
    | LoadError(text: string)

  const FailurePrefix: string := "Failed to load gallery. "

  /** The text shown in place of the gallery when loading fails: a fixed
      prefix followed by the failure's own message. */
  function FailureText(message: string): (text: string)
    ensures |text| == |FailurePrefix| + |message|
    ensures text[..|FailurePrefix|] == FailurePrefix
    ensures text[|FailurePrefix|..] == message
  {
    FailurePrefix + message
  }

  class MemoriesGallery {
    var isMuted: bool
    /** The background music element's `muted` property. */
    var musicMuted: bool
    var audioIcon: AudioIcon
    /** Whether the preview overlay carries the `active` class. */
    var previewActive: bool
    var previewSrc: ImageSource
    var previewSize: Size
    var content: GalleryContent

    /** The music and the icon agree with the mute flag. */
    ghost predicate AudioInSync()
      reads this
    {
      musicMuted == isMuted && audioIcon == IconFor(isMuted)
    }

    /** A fresh gallery: unmuted, nothing previewed, nothing loaded. */
    constructor ()
      ensures !isMuted && AudioInSync()
      ensures !previewActive && content == NotLoaded
    {
      isMuted := false;
      musicMuted := false;
      audioIcon := SoundOn;
      previewActive := false;
      previewSrc := "";
      previewSize := Size(0.0, 0.0);
      content := NotLoaded;
    }

    /** Flips the mute flag and brings the music and the icon in line with
      it, whatever they were before. */
    method ToggleAudio()
      modifies this`isMuted, this`musicMuted, this`audioIcon
      ensures isMuted == !old(isMuted)
      ensures AudioInSync()
    {
      if isMuted {
        musicMuted := false;
        isMuted := false;
        audioIcon := SoundOn;
      } else {
        musicMuted := true;
        isMuted := true;
        audioIcon := SoundOff;
      }
    }

    /** The preview image's load handler: the clicked image is shown at its
      scaled size and the overlay becomes active. */
    method ShowPreview(src: ImageSource, window: Size, natural: Size)
      requires Positive(window) && Positive(natural)
      modifies this`previewSrc, this`previewSize, this`previewActive
      ensures previewActive && previewSrc == src
      ensures previewSize == Scale(window, natural)
    {
      var scaled := Scale(window, natural);
      previewSrc := src;
      previewSize := scaled;
      previewActive := true;
    }

    method CloseImagePreview()
      modifies this`previewActive
      ensures !previewActive
    {
      previewActive := false;
    }

    /** A click on the overlay closes an active preview and does nothing
      otherwise. */
    method OverlayClicked()
      modifies this`previewActive
      ensures !previewActive
      ensures !old(previewActive) ==> unchanged(this)
    {
      if previewActive {
        CloseImagePreview();
      }
    }

    /** Builds the gallery from the manifest: on success the doubled column
      strip scrolling for SecondsPerImage seconds per image, on failure the
      error text in place of the whole gallery. */
    method LoadGallery(manifest: FetchResult)
      modifies this`content
      ensures manifest.Fetched? ==>
                content == Scrolling(Render(ColumnSet(manifest.images)), AnimationDuration(manifest.images))
      ensures manifest.FetchFailed? ==> content == LoadError(FailureText(manifest.message))
    {
      match manifest
      case Fetched(images) =>
        var columnArrays := DistributeColumns(images);
        var groups := RenderColumns(columnArrays);
        var totalImages := |images|;
        var animationDuration := totalImages * SecondsPerImage;
        content := Scrolling(groups, animationDuration);
      case FetchFailed(message) =>
        content := LoadError(FailureText(message));
    }
  }

  /** Toggling twice restores the mute flag, the music and the icon. */
  method ToggleAudioTwice(g: MemoriesGallery)
    requires g.AudioInSync()
    modifies g`isMuted, g`musicMuted, g`audioIcon
    ensures g.isMuted == old(g.isMuted) && g.musicMuted == old(g.musicMuted)
    ensures g.audioIcon == old(g.audioIcon)
    ensures g.AudioInSync()
  {
    g.ToggleAudio();
    g.ToggleAudio();
  }

  /** Two previews completing one after the other, each scaled to the window
      as it is when its image finishes loading: the one that completes last is
      shown, at its own scaled size, and nothing outside the preview changes. */
  method LastPreviewWins(g: MemoriesGallery, first: ImageSource, second: ImageSource,
                         firstWindow: Size, firstSize: Size, secondWindow: Size, secondSize: Size)
    requires Positive(firstWindow) && Positive(firstSize)
    requires Positive(secondWindow) && Positive(secondSize)
    modifies g`previewSrc, g`previewSize, g`previewActive
    ensures g.previewActive && g.previewSrc == second
    ensures g.previewSize == Scale(secondWindow, secondSize)
  {
    g.ShowPreview(first, firstWindow, firstSize);
    g.ShowPreview(second, secondWindow, secondSize);
  }

  /** A loaded gallery's strip holds every manifest image twice, as eight
      column groups whose second four repeat the first four. */
  lemma LoadedStrip(images: seq<ImageSource>)
    ensures |Render(ColumnSet(images))| == 2 * Columns
    ensures Render(ColumnSet(images))[Columns..] == Render(ColumnSet(images))[..Columns]
    ensures multiset(Flatten(Render(ColumnSet(images)))) == multiset(images) + multiset(images)
  {
    var columnSet := ColumnSet(images);
    FlattenConcat(columnSet, columnSet);
    ColumnsPartition(images);
  }
}
