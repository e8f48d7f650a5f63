/** What the shell's event handling guarantees: the drag bounds and the
    snap, click suppression after a drag, the credential slots and their
    saved flags, and restoring what was persisted. */
module ShellLaws {
  import opened Wrappers
  import opened Geometry
  import opened Text
  import opened PositionCodec
  import opened Views
  import opened ShellSpec

  lemma KeysDistinct()
    ensures FabKey != TextKey && FabKey != ImageKey && TextKey != ImageKey
  {
    assert |FabKey| == 15 && |TextKey| == 14 && |ImageKey| == 13;
  }

  // ---------------------------------------------------------------- drag

  /** Pointer-down starts a drag, clears `moved` and records the pointer's
      offset from the button's top-left; nothing else changes. */
  lemma DownStartsDrag(s: Snapshot, clientX: int, clientY: int, rectLeft: int, rectTop: int)
    ensures var t := Step(s, PointerDown(clientX, clientY, rectLeft, rectTop));
      && t.dragging && !t.moved
      && rectLeft + t.offX == clientX && rectTop + t.offY == clientY
      && t.(offX := s.offX, offY := s.offY, dragging := s.dragging, moved := s.moved) == s
  {
  }

  /** A move while dragging sets `moved`, keeps the button inside the
      band on both axes, follows the pointer wherever that stays inside
      the band, and touches nothing but the position and `moved`. */
  lemma MoveStaysInBand(s: Snapshot, clientX: int, clientY: int, width: int, height: int)
    requires s.dragging
    ensures var t := Step(s, PointerMove(clientX, clientY, width, height));
      && t.moved && t.dragging
      && Inset <= t.x <= Upper(width) && Inset <= t.y <= Upper(height)
      && (Inset <= clientX - s.offX <= Upper(width) ==> t.x == clientX - s.offX)
      && (Inset <= clientY - s.offY <= Upper(height) ==> t.y == clientY - s.offY)
      && t.(x := s.x, y := s.y, moved := s.moved) == s
  {
  }

  /** With no drag in progress, pointer-move and pointer-up change nothing:
      position, flags and storage stay as they are. */
  lemma IdlePointerIsNoOp(s: Snapshot, e: Event)
    requires !s.dragging && (e.PointerMove? || e.PointerUp?)
    ensures Step(s, e) == s
  {
  }

  /** "moved" stays set after a drag until the next pointer-down, so any
      number of clicks before it change nothing. */
  lemma {:induction false} ClicksIgnoredAfterDrag(s: Snapshot, n: nat)
    requires s.moved
    ensures Run(s, seq(n, _ => FabClick)) == s
    decreases n
  {
    if n > 0 {
      var cs := seq(n, _ => FabClick);
      assert cs[1..] == seq(n - 1, _ => FabClick);
      ClicksIgnoredAfterDrag(s, n - 1);
    }
  }

  /** Pointer-up after a drag ends it, puts `x` on exactly one of the two
      edge positions (left when `x + 24` is left of the middle), clamps
      `y`, and stores the resting point so that it decodes back exactly. */
  lemma UpSnapsAndPersists(s: Snapshot, width: int, height: int)
    requires s.dragging
    ensures var t := Step(s, PointerUp(width, height));
      && !t.dragging && t.moved == s.moved
      && (t.x == Inset || t.x == Upper(width))
      && (2 * (s.x + FabHalf) < width ==> t.x == Inset)
      && (2 * (s.x + FabHalf) >= width ==> t.x == Upper(width))
      && Inset <= t.y <= Upper(height)
      && (Inset <= s.y <= Upper(height) ==> t.y == s.y)
      && t.storage == s.storage[FabKey := EncodePoint(Point(t.x, t.y))]
      && DecodePoint(Lookup(t.storage, FabKey)) == Some(Point(t.x, t.y))
      && t.(x := s.x, y := s.y, dragging := s.dragging, storage := s.storage) == s
  {
    var t := Step(s, PointerUp(width, height));
    DecodeEncode(Point(t.x, t.y));
  }

  /** A tap on a button already resting at an edge leaves it there on any
      viewport wider than 64px. */
  lemma TapKeepsRestingPlace(s: Snapshot, clientX: int, clientY: int, width: int, height: int)
    requires width > 2 * (Inset + FabHalf)
    requires s.x == SnapX(s.x, width) && s.y == Clamp(s.y, height)
    ensures var t := Run(s, [PointerDown(clientX, clientY, s.x, s.y), PointerUp(width, height)]);
      t.x == s.x && t.y == s.y
  {
    var d := Step(s, PointerDown(clientX, clientY, s.x, s.y));
    SnapStable(s.x, width);
    ClampIdempotent(s.y, height);
    RunPair(s, PointerDown(clientX, clientY, s.x, s.y), PointerUp(width, height));
  }

  // ----------------------------------------------------- event sequences

  lemma {:induction false} RunConcat(s: Snapshot, a: seq<Event>, b: seq<Event>)
    ensures Run(s, a + b) == Run(Run(s, a), b)
    decreases |a|
  {
    if a != [] {
      assert (a + b)[0] == a[0] && (a + b)[1..] == a[1..] + b;
      RunConcat(Step(s, a[0]), a[1..], b);
    } else {
      assert a + b == b;
    }
  }

  lemma RunPair(s: Snapshot, a: Event, b: Event)
    ensures Run(s, [a, b]) == Step(Step(s, a), b)
  {
    assert [a, b][0] == a && [a, b][1..] == [b];
    assert [b][0] == b && [b][1..] == [];
    assert Run(s, [a, b]) == Run(Step(s, a), [b]);
    assert Run(Step(s, a), [b]) == Run(Step(Step(s, a), b), []);
  }

  lemma RunTriple(s: Snapshot, a: Event, b: Event, c: Event)
    ensures Run(s, [a, b, c]) == Step(Step(Step(s, a), b), c)
  {
    assert [a, b, c][0] == a && [a, b, c][1..] == [b, c];
    RunPair(Step(s, a), b, c);
  }

  predicate AllMoves(ms: seq<Event>)
  {
    forall i :: 0 <= i < |ms| ==> ms[i].PointerMove?
  }

  /** Moves during a drag keep it going, set `moved` as soon as there is
      one, and change nothing outside the position and `moved`. */
  lemma {:induction false} MovesDuringDrag(s: Snapshot, ms: seq<Event>)
    requires s.dragging && AllMoves(ms)
    ensures var t := Run(s, ms);
      && t.dragging
      && (ms != [] ==> t.moved) && (ms == [] ==> t.moved == s.moved)
      && t.(x := s.x, y := s.y, moved := s.moved) == s
    decreases |ms|
  {
    if ms != [] {
      var m := ms[0];
      assert m.PointerMove?;
      var t := Step(s, m);
      assert AllMoves(ms[1..]) by {
        forall i | 0 <= i < |ms[1..]| ensures ms[1..][i].PointerMove? {
          assert ms[1..][i] == ms[i + 1];
        }
      }
      MovesDuringDrag(t, ms[1..]);
    }
  }

  /** A drag never also fires the tap: pointer-down, at least one move,
      pointer-up and the click that follows leave the modal as it was. */
  lemma DragSuppressesClick(s: Snapshot, clientX: int, clientY: int, rectLeft: int, rectTop: int,
                            ms: seq<Event>, width: int, height: int)
    requires ms != [] && AllMoves(ms)
    ensures var t := Run(s, [PointerDown(clientX, clientY, rectLeft, rectTop)] + ms + [PointerUp(width, height), FabClick]);
      t.modalOpen == s.modalOpen && !t.dragging && t.moved
  {
    var down := PointerDown(clientX, clientY, rectLeft, rectTop);
    var d := Step(s, down);
    assert Run(s, [down]) == d;
    RunConcat(s, [down], ms);
    MovesDuringDrag(d, ms);
    var m := Run(d, ms);
    RunConcat(s, [down] + ms, [PointerUp(width, height), FabClick]);
    RunPair(m, PointerUp(width, height), FabClick);
  }

  /** A tap (pointer-down, pointer-up, click with no move between) does
      reach the click handler: the modal ends closed exactly when both
      keys are saved. */
  lemma TapReachesClick(s: Snapshot, clientX: int, clientY: int, rectLeft: int, rectTop: int,
                        width: int, height: int)
    ensures var t := Run(s, [PointerDown(clientX, clientY, rectLeft, rectTop), PointerUp(width, height), FabClick]);
      t.modalOpen == !(s.apiSaved && s.imageSaved) && !t.dragging && !t.moved
  {
    RunTriple(s, PointerDown(clientX, clientY, rectLeft, rectTop), PointerUp(width, height), FabClick);
  }

  /** The click handler: suppressed after a drag, otherwise it closes the
      modal when both keys are saved and opens it when either is not. */
  lemma ClickSetsModal(s: Snapshot)
    ensures s.moved ==> Step(s, FabClick) == s
    ensures !s.moved ==> Step(s, FabClick) == s.(modalOpen := !(s.apiSaved && s.imageSaved))
  {
  }

  // --------------------------------------------------------- credentials

  /** Save handles each slot on its own: a value that trims to something
      is stored trimmed and flagged saved, a blank one removes the key and
      clears the flag; no other key changes and the modal closes. */
  lemma SaveSlots(s: Snapshot)
    ensures Step(s, SaveClick).apiSaved == !AllSpace(s.apiInput)
    ensures Step(s, SaveClick).imageSaved == !AllSpace(s.imageInput)
    ensures Lookup(Step(s, SaveClick).storage, TextKey) == Trim(s.apiInput)
    ensures Trim(s.apiInput) == "" ==> TextKey !in Step(s, SaveClick).storage
    ensures Lookup(Step(s, SaveClick).storage, ImageKey) == Trim(s.imageInput)
    ensures Trim(s.imageInput) == "" ==> ImageKey !in Step(s, SaveClick).storage
    ensures forall k :: k != TextKey && k != ImageKey ==> Lookup(Step(s, SaveClick).storage, k) == Lookup(s.storage, k)
    ensures Step(s, SaveClick).textKeySent == Some(Trim(s.apiInput))
    ensures Step(s, SaveClick).imageKeySent == Some(Trim(s.imageInput))
    ensures !Step(s, SaveClick).modalOpen
  {
    var t := Save(s);
    assert Step(s, SaveClick) == t;
    StoreOrRemoveLookup(s.storage, TextKey, Trim(s.apiInput));
    StoreOrRemoveLookup(StoreOrRemove(s.storage, TextKey, Trim(s.apiInput)), ImageKey, Trim(s.imageInput));
    assert t.apiSaved == !AllSpace(s.apiInput) by { TrimEmptyIff(s.apiInput); }
    assert t.imageSaved == !AllSpace(s.imageInput) by { TrimEmptyIff(s.imageInput); }
    assert Lookup(t.storage, TextKey) == Trim(s.apiInput) by { KeysDistinct(); }
    assert Trim(s.apiInput) == "" ==> TextKey !in t.storage by { KeysDistinct(); }
  }

  /** After a save both flags agree with storage, whatever came before. */
  lemma SaveSyncs(s: Snapshot)
    ensures CredentialsInSync(Step(s, SaveClick))
    ensures !Step(s, SaveClick).modalOpen
  {
    SaveSlots(s);
  }

  /** Saving one slot does not depend on what the other slot holds. */
  lemma SaveSlotsIndependent(s1: Snapshot, s2: Snapshot)
    requires s1.apiInput == s2.apiInput
    ensures Step(s1, SaveClick).apiSaved == Step(s2, SaveClick).apiSaved
    ensures Lookup(Step(s1, SaveClick).storage, TextKey) == Lookup(Step(s2, SaveClick).storage, TextKey)
  {
    KeysDistinct();
  }

  /** Each saved flag agrees with its stored key right after mounting, and
      every event keeps that agreement. */
  lemma MountInSync(st: Storage)
    ensures CredentialsInSync(Mount(st))
  {
  }

  lemma StepPreservesSync(s: Snapshot, e: Event)
    requires CredentialsInSync(s)
    ensures CredentialsInSync(Step(s, e))
  {
    KeysDistinct();
  }

  lemma {:induction false} RunPreservesSync(s: Snapshot, es: seq<Event>)
    requires CredentialsInSync(s)
    ensures CredentialsInSync(Run(s, es))
    decreases |es|
  {
    if es != [] {
      StepPreservesSync(s, es[0]);
      RunPreservesSync(Step(s, es[0]), es[1..]);
    }
  }

  /** The agreement rests on this shell being the only writer: when the
      text key is removed from outside (another tab saving a blank key),
      the text slot still reads as saved. */
  lemma ForeignRemovalBreaksSync(s: Snapshot)
    requires CredentialsInSync(s) && s.apiSaved
    ensures !CredentialsInSync(s.(storage := s.storage - {TextKey}))
  {
  }

  // ------------------------------------------------------------- startup

  /** Mounting: each saved flag is true exactly when its key is stored
      non-empty, the modal is open exactly when either is missing or empty,
      a position is adopted only when the stored text decodes, no drag is in
      progress and storage is left as it was. */
  lemma MountState(st: Storage)
    ensures var m := Mount(st);
      && m.apiSaved == (Lookup(st, TextKey) != "")
      && m.imageSaved == (Lookup(st, ImageKey) != "")
      && m.modalOpen == (Lookup(st, TextKey) == "" || Lookup(st, ImageKey) == "")
      && (Lookup(st, TextKey) != "" ==> m.apiInput == Lookup(st, TextKey) && m.textKeySent == Some(Lookup(st, TextKey)))
      && (Lookup(st, TextKey) == "" ==> m.apiInput == "" && m.textKeySent == None)
      && (Lookup(st, ImageKey) != "" ==> m.imageInput == Lookup(st, ImageKey) && m.imageKeySent == Some(Lookup(st, ImageKey)))
      && (Lookup(st, ImageKey) == "" ==> m.imageInput == "" && m.imageKeySent == None)
      && (DecodePoint(Lookup(st, FabKey)).Some? ==> Point(m.x, m.y) == DecodePoint(Lookup(st, FabKey)).value)
      && (DecodePoint(Lookup(st, FabKey)).None? ==> Point(m.x, m.y) == DefaultPos)
      && !m.dragging && !m.moved && m.session == None && m.storage == st
  {
  }

  /** A stored position that is not the encoding of any point, missing or
      empty included, leaves the default position in place. */
  lemma MountIgnoresMalformedPosition(st: Storage)
    requires forall p: Point :: EncodePoint(p) != Lookup(st, FabKey)
    ensures Mount(st).x == DefaultPos.x && Mount(st).y == DefaultPos.y
  {
    if DecodePoint(Lookup(st, FabKey)).Some? {
      DecodeOnlyEncodings(Lookup(st, FabKey));
    }
  }

  /** Loading twice without a save in between gives the same state. */
  lemma MountTwice(st: Storage)
    ensures Mount(Mount(st).storage) == Mount(st)
  {
  }

  /** The point a drag comes to rest at is where the shell starts the next
      time it is mounted. */
  lemma RestingPlaceSurvivesReload(s: Snapshot, width: int, height: int)
    requires s.dragging
    ensures var t := Step(s, PointerUp(width, height));
      Mount(t.storage).x == t.x && Mount(t.storage).y == t.y
  {
    UpSnapsAndPersists(s, width, height);
  }

  /** Typing a text key and saving with the image field blank flags only
      the text slot and stores only that key. */
  lemma SaveTextKeyOnly(m: Snapshot, key: string)
    requires m.imageInput == ""
    requires key != [] && !IsSpace(key[0]) && !IsSpace(key[|key| - 1])
    ensures var t := Run(m, [ApiKeyChange(key), SaveClick]);
      && t.apiSaved && !t.imageSaved && !t.modalOpen
      && Lookup(t.storage, TextKey) == key && ImageKey !in t.storage
  {
    RunPair(m, ApiKeyChange(key), SaveClick);
    assert Trim(key) == key by {
      assert AllSpace([]) && key == [] + key + [];
      TrimOfPadded([], key, []);
    }
    var e := Step(m, ApiKeyChange(key));
    assert e.apiInput == key && e.imageInput == "";
    var t := Step(e, SaveClick);
    assert t.apiSaved && Lookup(t.storage, TextKey) == key by { SaveSlots(e); }
    assert !t.imageSaved && ImageKey !in t.storage && !t.modalOpen by {
      assert Trim("") == "";
      SaveSlots(e);
    }
  }

  /** Storage holding only a text key mounts with the modal forced open. */
  lemma MountWithTextKeyOnly(st: Storage)
    requires Lookup(st, TextKey) != "" && ImageKey !in st
    ensures Mount(st).modalOpen && Mount(st).apiSaved && !Mount(st).imageSaved
  {
    MountState(st);
  }

  /** Fresh storage opens the modal with neither slot saved; after saving
      "sk-1" as the text key only that slot is saved, and mounting again
      opens the modal because the image slot is still unconfigured. */
  lemma FirstRunScenario()
    ensures Mount(map[]).modalOpen && !Mount(map[]).apiSaved && !Mount(map[]).imageSaved
    ensures var t := Run(Mount(map[]), [ApiKeyChange("sk-1"), SaveClick]);
      && t.apiSaved && !t.imageSaved && !t.modalOpen
      && Mount(t.storage).modalOpen
  {
    MountState(map[]);
    SaveTextKeyOnly(Mount(map[]), "sk-1");
    MountWithTextKeyOnly(Run(Mount(map[]), [ApiKeyChange("sk-1"), SaveClick]).storage);
  }

  // ---------------------------------------------------------------- view

  /** Signing in shows the view the new session's status selects. */
  lemma LoginShowsSessionView(s: Snapshot, session: Session)
    ensures CurrentView(Step(s, LoginSuccess(session))) == ResolveView(Some(session))
    ensures CurrentView(Step(s, LoginSuccess(session))) != LoginView <==> !session.status.Unrecognized?
  {
  }
}
