/** The App component's mutable state and its event handlers. Each handler
    updates the fields step by step as the component does, and is proved to
    take the shell exactly as `ShellSpec.Step` says; the guarantees of that
    step are the lemmas of `ShellLaws`. */
module AppShell {
  import opened Wrappers
  import opened Geometry
  import opened Text
  import opened PositionCodec
  import opened Views
  import opened ShellSpec
  import opened ShellLaws

  class Shell {
    var session: Option<Session>
    var apiInput: string
    var imageInput: string
    var apiSaved: bool
    var imageSaved: bool
    var modalOpen: bool
    /** `fabPos`, the live button position. */
    var x: int
    var y: int
    /** `dragOffsetRef`, `draggingRef`, `dragMovedRef`. */
    var offX: int
    var offY: int
    var dragging: bool
    var moved: bool
    /** Browser storage as this page sees it. */
    var storage: Storage
    /** Last values passed to the generation service's key setters. */
    var textKeySent: Option<string>
    var imageKeySent: Option<string>

    function State(): Snapshot
      reads this
    {
      Snapshot(x, y, offX, offY, dragging, moved, apiInput, imageInput, apiSaved, imageSaved,
               modalOpen, session, storage, textKeySent, imageKeySent)
    }

    /** Mounting over the storage the browser already holds: the initial
        state values, then the position restore and credential load effects
        run in their declaration order. */
    constructor (stored: Storage)
      ensures State() == Mount(stored)
      ensures CredentialsInSync(State())
    {
      session := None;
      apiInput, imageInput := "", "";
      apiSaved, imageSaved, modalOpen := false, false, false;
      x, y := DefaultPos.x, DefaultPos.y;
      offX, offY := 0, 0;
      dragging, moved := false, false;
      storage := stored;
      textKeySent, imageKeySent := None, None;
      new;
      RestoreStoredPosition();
      LoadStoredKeys();
      MountInSync(stored);
    }

    /** Adopts the stored position when it is present and decodes. */
    method RestoreStoredPosition()
      modifies this
      ensures State() == RestorePosition(old(State()))
    {
      var storedFab := Lookup(storage, FabKey);
      if storedFab != "" {
        var parsed := DecodePoint(storedFab);
        if parsed.Some? {
          x, y := parsed.value.x, parsed.value.y;
        }
      }
    }

    /** Adopts each non-empty stored key; opens the modal when either is
        missing or empty. */
    method LoadStoredKeys()
      modifies this
      ensures State() == LoadCredentials(old(State()))
    {
      var stored := Lookup(storage, TextKey);
      var storedImage := Lookup(storage, ImageKey);
      var hasText, hasImage := stored != "", storedImage != "";
      if hasText {
        apiInput, apiSaved, textKeySent := stored, true, Some(stored);
      }
      if hasImage {
        imageInput, imageSaved, imageKeySent := storedImage, true, Some(storedImage);
      }
      if !hasText || !hasImage {
        modalOpen := true;
      }
    }

    /** `onPointerDown` of the button: records the grab offset and starts a
        drag. It is not guarded: a second pointer-down restarts the drag. */
    method OnPointerDown(clientX: int, clientY: int, rectLeft: int, rectTop: int)
      modifies this
      ensures State() == Down(old(State()), clientX, clientY, rectLeft, rectTop)
      ensures dragging && !moved && offX == clientX - rectLeft && offY == clientY - rectTop
    {
      offX, offY := clientX - rectLeft, clientY - rectTop;
      dragging, moved := true, false;
    }

    /** `handleMove`: while dragging, marks the gesture as moved and
        publishes the pointer position less the offset, clamped on each
        axis to the viewport read at this event. */
    method HandleMove(clientX: int, clientY: int, width: int, height: int)
      modifies this
      ensures State() == Move(old(State()), clientX, clientY, width, height)
      ensures old(dragging) ==> moved && Inset <= x <= Upper(width) && Inset <= y <= Upper(height)
      ensures !old(dragging) ==> State() == old(State())
    {
      if !dragging {
        return;
      }
      moved := true;
      var nextX := clientX - offX;
      var nextY := clientY - offY;
      var maxX := width - FabSpan;
      var maxY := height - FabSpan;
      x := Min(Max(Inset, nextX), Max(Inset, maxX));
      y := Min(Max(Inset, nextY), Max(Inset, maxY));
    }

    /** `handleUp`: while dragging, ends the drag, snaps `x` to the left
        inset when `x + 24` is left of the middle and to the right bound otherwise, clamps `y` and stores the resting point. */
    method HandleUp(width: int, height: int)
      modifies this
      ensures State() == Up(old(State()), width, height)
    {
      if !dragging {
        return;
      }
      dragging := false;
      var maxX := width - FabSpan;
      var maxY := height - FabSpan;
      var snapX := if 2 * (x + FabHalf) < width then Inset else Max(Inset, maxX);
      var snapY := Min(Max(Inset, y), Max(Inset, maxY));
      var snapped := Point(snapX, snapY);
      x, y := snapped.x, snapped.y;
      storage := storage[FabKey := EncodePoint(snapped)];
    }

    /** `onClick` of the button: ignored after a drag; otherwise closes the
        modal when both keys are saved and opens it when either is not. */
    method OnFabClick()
      modifies this
      ensures State() == Click(old(State()))
      ensures old(moved) ==> State() == old(State())
      ensures !old(moved) ==> modalOpen == !(apiSaved && imageSaved)
    {
      if moved {
        return;
      }
      if apiSaved && imageSaved {
        modalOpen := false;
        return;
      }
      modalOpen := true;
    }

    /** The modal's Close button. */
    method OnCloseClick()
      modifies this
      ensures State() == Step(old(State()), CloseClick)
      ensures !modalOpen
    {
      modalOpen := false;
    }

    /** The modal's Save button: trims both inputs, hands them to the
        generation service, stores or removes each key, sets the two saved
        flags and closes the modal. */
    method OnSaveClick()
      modifies this
      ensures State() == Save(old(State()))
    {
      ghost var s0 := State();
      ghost var t := Save(s0);
      var key := Trim(apiInput);
      var imageKey := Trim(imageInput);
      assert key == Trim(s0.apiInput) && imageKey == Trim(s0.imageInput);
      textKeySent, imageKeySent := Some(key), Some(imageKey);
      PersistKeys(key, imageKey);
      apiSaved, imageSaved := key != "", imageKey != "";
      modalOpen := false;
      assert storage == t.storage;
    }

    /** The storage half of Save: each key is written when its trimmed
        value is non-empty and removed otherwise. */
    method PersistKeys(key: string, imageKey: string)
      modifies this`storage
      ensures storage == StoreOrRemove(StoreOrRemove(old(storage), TextKey, key), ImageKey, imageKey)
    {
      if key != "" {
        storage := storage[TextKey := key];
      } else {
        storage := storage - {TextKey};
      }
      if imageKey != "" {
        storage := storage[ImageKey := imageKey];
      } else {
        storage := storage - {ImageKey};
      }
    }

    /** The text key input's `onChange`. */
    method OnApiKeyChange(text: string)
      modifies this
      ensures State() == Step(old(State()), ApiKeyChange(text))
    {
      apiInput := text;
    }

    /** The image key input's `onChange`. */
    method OnImageKeyChange(text: string)
      modifies this
      ensures State() == Step(old(State()), ImageKeyChange(text))
    {
      imageInput := text;
    }

    /** `handleLoginSuccess`: the session provider's callback. */
    method HandleLoginSuccess(userSession: Session)
      modifies this
      ensures State() == Step(old(State()), LoginSuccess(userSession))
      ensures CurrentView(State()) == ResolveView(Some(userSession))
    {
      session := Some(userSession);
    }
  }
}
