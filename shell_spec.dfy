/** The app shell as a state machine: everything the component keeps
    (React state, the three refs, browser storage and the last credentials
    handed to the generation service) as one value, and the effect of every
    event the component handles on it. The class `AppShell.Shell` is proved
    to follow these steps. */
module ShellSpec {
  import opened Wrappers
  import opened Geometry
  import opened Text
  import opened PositionCodec
  import opened Views

  /** Browser key-value storage. */
  type Storage = map<string, string>

  const FabKey: string := "API_KEY_FAB_POS"
  const TextKey: string := "GEMINI_API_KEY"
  const ImageKey: string := "IMAGE_API_KEY"

  /** `localStorage.getItem(k) || ''`: the stored text, or "" when absent. */
  function Lookup(st: Storage, k: string): (v: string)
    ensures k !in st ==> v == ""
    ensures k in st ==> v == st[k]
  {
    if k in st then st[k] else ""
  }

  /** The whole state of the shell. `x, y` is the live button position,
      `offX, offY` the grab offset, `dragging` and `moved` the two drag
      refs; `textKeySent` and `imageKeySent` are the last values passed to
      the generation service's two setters (None before the first call). */
  datatype Snapshot = Snapshot(
    x: int, y: int, offX: int, offY: int, dragging: bool, moved: bool,
    apiInput: string, imageInput: string, apiSaved: bool, imageSaved: bool,
    modalOpen: bool, session: Option<Session>, storage: Storage,
    textKeySent: Option<string>, imageKeySent: Option<string>)

  /** Every event the shell reacts to. Viewport sizes are read at each
      pointer event; `rectLeft, rectTop` are the button's bounding box. */
  datatype Event =
    | PointerDown(clientX: int, clientY: int, rectLeft: int, rectTop: int)
    | PointerMove(clientX: int, clientY: int, width: int, height: int)
    | PointerUp(width: int, height: int)
    | FabClick
    | CloseClick
    | SaveClick
    | ApiKeyChange(text: string)
    | ImageKeyChange(text: string)
    | LoginSuccess(session: Session)

  /** The `useState`/`useRef` initial values over whatever storage holds. */
  function Initial(st: Storage): Snapshot
  {
    Snapshot(DefaultPos.x, DefaultPos.y, 0, 0, false, false, "", "", false, false,
             false, None, st, None, None)
  }

  /** Mount effect 1: adopt the stored position when it decodes. */
  function RestorePosition(s: Snapshot): Snapshot
  {
    match DecodePoint(Lookup(s.storage, FabKey))
    case Some(p) => s.(x := p.x, y := p.y)
    case None => s
  }

  /** Mount effect 3: adopt each non-empty stored key, and open the modal
      when either is missing or empty. */
  function LoadCredentials(s: Snapshot): Snapshot
  {
    var stored := Lookup(s.storage, TextKey);
    var storedImage := Lookup(s.storage, ImageKey);
    var s1 := if stored != "" then s.(apiInput := stored, apiSaved := true, textKeySent := Some(stored)) else s;
    var s2 := if storedImage != "" then s1.(imageInput := storedImage, imageSaved := true, imageKeySent := Some(storedImage)) else s1;
    if stored == "" || storedImage == "" then s2.(modalOpen := true) else s2
  }

  /** The shell right after mounting over storage `st`. */
  function Mount(st: Storage): Snapshot
  {
    LoadCredentials(RestorePosition(Initial(st)))
  }

  /** `localStorage.setItem(k, v)` when `v` is non-empty, else `removeItem(k)`. */
  function StoreOrRemove(st: Storage, k: string, v: string): Storage
  {
    if v != "" then st[k := v] else st - {k}
  }

  /** After StoreOrRemove, `k` reads back as `v` (absent when `v` is
      empty) and every other key reads as before. */
  lemma StoreOrRemoveLookup(st: Storage, k: string, v: string)
    ensures Lookup(StoreOrRemove(st, k, v), k) == v
    ensures v == "" ==> k !in StoreOrRemove(st, k, v)
    ensures forall j :: j != k ==> Lookup(StoreOrRemove(st, k, v), j) == Lookup(st, j)
  {
  }

  function Down(s: Snapshot, clientX: int, clientY: int, rectLeft: int, rectTop: int): Snapshot
  {
    s.(offX := clientX - rectLeft, offY := clientY - rectTop, dragging := true, moved := false)
  }

  function Move(s: Snapshot, clientX: int, clientY: int, width: int, height: int): Snapshot
  {
    if !s.dragging then s
    else s.(moved := true, x := Clamp(clientX - s.offX, width), y := Clamp(clientY - s.offY, height))
  }

  function Up(s: Snapshot, width: int, height: int): Snapshot
  {
    if !s.dragging then s
    else
      var snapped := Point(SnapX(s.x, width), Clamp(s.y, height));
      s.(dragging := false, x := snapped.x, y := snapped.y,
         storage := s.storage[FabKey := EncodePoint(snapped)])
  }

  function Click(s: Snapshot): Snapshot
  {
    if s.moved then s
    else if s.apiSaved && s.imageSaved then s.(modalOpen := false)
    else s.(modalOpen := true)
  }

  function Save(s: Snapshot): Snapshot
  {
    var key := Trim(s.apiInput);
    var imageKey := Trim(s.imageInput);
    s.(textKeySent := Some(key), imageKeySent := Some(imageKey),
       storage := StoreOrRemove(StoreOrRemove(s.storage, TextKey, key), ImageKey, imageKey),
       apiSaved := key != "", imageSaved := imageKey != "", modalOpen := false)
  }

  function Step(s: Snapshot, e: Event): Snapshot
  {
    match e
    case PointerDown(cx, cy, left, top) => Down(s, cx, cy, left, top)
    case PointerMove(cx, cy, w, h) => Move(s, cx, cy, w, h)
    case PointerUp(w, h) => Up(s, w, h)
    case FabClick => Click(s)
    case CloseClick => s.(modalOpen := false)
    case SaveClick => Save(s)
    case ApiKeyChange(t) => s.(apiInput := t)
    case ImageKeyChange(t) => s.(imageInput := t)
    case LoginSuccess(session) => s.(session := Some(session))
  }

  /** Events handled one after another. */
  function Run(s: Snapshot, es: seq<Event>): Snapshot
    decreases |es|
  {
    if es == [] then s else Run(Step(s, es[0]), es[1..])
  }

  /** The view on screen in state `s`. */
  function CurrentView(s: Snapshot): View
  {
    ResolveView(s.session)
  }

  /** Each saved flag agrees with its stored key being non-empty. */
  predicate CredentialsInSync(s: Snapshot)
  {
    s.apiSaved == (Lookup(s.storage, TextKey) != "") &&
    s.imageSaved == (Lookup(s.storage, ImageKey) != "")
  }
}
