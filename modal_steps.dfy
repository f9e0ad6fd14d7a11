/**
 * The embed modal of the portfolio page: a dialog that shows a project's
 * interactive sketch in a sandboxed iframe, with a load timeout, an error panel
 * offering a retry and a direct link, and a teardown deferred past the close
 * animation.
 *
 * The DOM is reduced to the attributes, styles and children the manager
 * touches. Timers carry no clock: an armed load timeout is an entry of
 * `armedTimeouts`, and the deferred cleanup and focus callbacks are counts of
 * callbacks still pending. Each handler is a function from one `ModalState` to
 * the next; the class `Modal.ModalManager` performs the same updates on its
 * fields and is proved against these functions.
 */
module ModalSteps {
  import opened Wrappers
  import opened ProjectData

  /** Which parts of the modal the document holds (found by a query, or null). */
  datatype Elements = Elements(
    modal: bool, backdrop: bool, content: bool, close: bool,
    title: bool, loading: bool, embed: bool)

  const NoElements := Elements(false, false, false, false, false, false, false)

  /**
   * The values of the modal's data-state attribute that matter: "open", which
   * the Escape listener tests for and open writes, "closed", which close
   * writes, and any other value the markup may hold.
   */
  datatype DataState = StateOpen | StateClosed | StateOther

  /** The modal's aria-hidden attribute: "true", "false", or another markup value. */
  datatype AriaHidden = HiddenTrue | HiddenFalse | HiddenOther

  /** document.body.style.overflow: "hidden", or "" (the stylesheet's default). */
  datatype Overflow = OverflowHidden | OverflowDefault

  /** An element's inline style.display: "none", "block", "flex", or unset. */
  datatype Display = DisplayNone | DisplayBlock | DisplayFlex | DisplayDefault

  /** The document: the parts it holds and the modal's attributes in the markup. */
  datatype Page = Page(parts: Elements, dataState: DataState, ariaHidden: AriaHidden)

  /** An element that can take focus: the modal's close control or some element of the page. */
  datatype Element = CloseControl | PageElement(id: nat)

  const SandboxPolicy := "allow-scripts allow-same-origin allow-forms allow-popups"
  const AllowPolicy := "fullscreen; accelerometer; gyroscope"
  const TitleSuffix := " - Interactive Sketch"

  /** An iframe built by createIframe; `project` is the record its error listener captured. */
  datatype Frame = Frame(
    serial: nat, src: string, frameborder: string, loading: string, allow: string,
    sandbox: string, title: string, ariaLabel: string, className: string,
    project: Project)

  /** A child of the embed container: an iframe, or the error panel with its retry button and link. */
  datatype Child = FrameChild(frame: Frame) | ErrorPanel(retryFor: Project, href: string)

  /** An armed load timeout: its handle and the record its callback captured. */
  datatype LoadTimer = LoadTimer(handle: nat, project: Project)

  /** Everything the manager reads or writes, fields and DOM alike. */
  datatype ModalState = ModalState(
    doc: Page,                      // the document init queries
    elems: Elements,                // the element references init cached
    listening: bool,                // the Escape, close and backdrop listeners are wired
    dataState: DataState,           // the modal's data-state attribute
    ariaHidden: AriaHidden,         // the modal's aria-hidden attribute
    bodyOverflow: Overflow,         // document.body.style.overflow
    titleText: string,              // the title element's text
    loadingDisplay: Display,        // the loading indicator's style.display
    embedDisplay: Display,          // the embed container's style.display
    embedChildren: seq<Child>,      // the embed container's children
    iframe: Option<Frame>,          // this.iframe
    loadTimeout: Option<nat>,       // this.loadTimeout, a timer handle
    armedTimeouts: seq<LoadTimer>,  // load timeouts armed and neither cleared nor fired
    pendingCleanups: nat,           // deferred close cleanups not yet run
    pendingFocus: nat,              // deferred close-control focus calls not yet run
    focused: Option<Element>,       // the element that last received focus
    currentProjectId: Option<string>,
    triggerElement: Option<Element>,
    nextId: nat)                    // source of fresh iframe serials and timer handles

  /** A freshly constructed manager over `doc`: nothing cached, nothing wired, nothing pending. */
  function Initial(doc: Page): (s: ModalState)
    ensures Inv(s)
  {
    ModalState(doc, NoElements, false, doc.dataState, doc.ariaHidden, OverflowDefault, "", DisplayDefault, DisplayDefault,
               [], None, None, [], 0, 0, None, None, None, 1)
  }

  /**
   * The guard at the top of open: a record that has an embed and a non-empty
   * embed URL. The iframe of an accepted record loads that URL, never the text "null".
   */
  predicate Accepts(record: Option<Project>)
    ensures Accepts(record) ==> record.Some? && record.value.embedUrl.Some?
    ensures Accepts(record) ==> UrlText(record.value.embedUrl) == record.value.embedUrl.value != ""
  {
    && record.Some?
    && record.value.hasEmbed
    && record.value.embedUrl.Some?
    && record.value.embedUrl.value != ""
  }

  /** A nullable URL as a template literal prints it. */
  function UrlText(url: Option<string>): string {
    if url.Some? then url.value else "null"
  }

  /** The number of iframes in a list of container children. */
  function LiveFrames(c: seq<Child>): nat {
    if c == [] then 0 else (if c[0].FrameChild? then 1 else 0) + LiveFrames(c[1..])
  }

  /** `f.remove()`: the children without `f`. */
  function Detach(c: seq<Child>, f: Frame): seq<Child> {
    if c == [] then [] else (if c[0] == FrameChild(f) then [] else [c[0]]) + Detach(c[1..], f)
  }

  /** The armed timeouts once the one with handle `h` is cleared (or has fired). */
  function Disarm(ts: seq<LoadTimer>, h: nat): seq<LoadTimer> {
    if ts == [] then [] else (if ts[0].handle == h then [] else [ts[0]]) + Disarm(ts[1..], h)
  }

  /** The record whose retry button the container shows, if it shows the error panel. */
  function RetryTarget(c: seq<Child>): Option<Project> {
    if |c| > 0 && c[0].ErrorPanel? then Some(c[0].retryFor) else None
  }

  /** What the container can hold once the iframe is gone: nothing, or the error panel. */
  predicate Residue(c: seq<Child>) {
    c == [] || (|c| == 1 && c[0].ErrorPanel?)
  }

  /**
   * The container holds nothing, the error panel, the owned iframe, or the error
   * panel followed by the owned iframe: never an iframe other than `this.iframe`.
   */
  predicate ContainerShape(c: seq<Child>, iframe: Option<Frame>) {
    || Residue(c)
    || (iframe.Some? && c == [FrameChild(iframe.value)])
    || (iframe.Some? && |c| == 2 && c[0].ErrorPanel? && c[1] == FrameChild(iframe.value))
  }

  /** At most one load timeout is armed, and it is the one `this.loadTimeout` names. */
  predicate TimerShape(ts: seq<LoadTimer>, handle: Option<nat>) {
    || (ts == [] && handle.None?)
    || (|ts| == 1 && handle == Some(ts[0].handle))
  }

  /** Before init succeeds nothing is cached, wired or pending; after it, the cache holds the document's parts. */
  predicate Cached(s: ModalState) {
    && (s.elems.modal ==> s.elems == s.doc.parts)
    && (!s.elems.modal ==>
          && s.elems == NoElements && !s.listening
          && s.embedChildren == [] && s.iframe.None?
          && s.armedTimeouts == [] && s.loadTimeout.None?
          && s.pendingCleanups == 0 && s.pendingFocus == 0)
    && (!s.elems.embed ==> s.embedChildren == [])
  }

  /** Every record a live callback captured passed open's guard, and the armed timeout belongs to the owned iframe. */
  predicate CapturedAccepted(s: ModalState) {
    && (|s.armedTimeouts| == 1 && s.iframe.Some? ==>
          s.armedTimeouts[0].project == s.iframe.value.project)
    && (s.iframe.Some? ==> Accepts(Some(s.iframe.value.project)))
    && (|s.armedTimeouts| == 1 ==> Accepts(Some(s.armedTimeouts[0].project)))
    && (RetryTarget(s.embedChildren).Some? ==> Accepts(RetryTarget(s.embedChildren)))
  }

  /** The invariant every reachable state satisfies. */
  predicate Inv(s: ModalState) {
    && Cached(s)
    && ContainerShape(s.embedChildren, s.iframe)
    && TimerShape(s.armedTimeouts, s.loadTimeout)
    && CapturedAccepted(s)
  }

  /** Under the invariant there is at most one live iframe, and it is the owned one. */
  lemma OneFrameOneTimer(s: ModalState)
    requires Inv(s)
    ensures LiveFrames(s.embedChildren) <= 1
    ensures |s.armedTimeouts| <= 1
    ensures forall f :: FrameChild(f) in s.embedChildren ==> s.iframe == Some(f)
  {
    var c := s.embedChildren;
    if |c| == 2 {
      assert c[1..] == [c[1]] && c[1..][1..] == [];
      assert LiveFrames(c[1..]) == 1;
    } else if |c| == 1 {
      assert c[1..] == [];
    }
  }

  /** The iframe createIframe builds for record `p`. */
  function NewFrame(serial: nat, p: Project): Frame {
    Frame(serial, UrlText(p.embedUrl), "0", "eager", AllowPolicy, SandboxPolicy,
          p.title + TitleSuffix, p.description, "modal-iframe", p)
  }

  /** The attributes of the created iframe. */
  lemma NewFrameAttributes(serial: nat, p: Project)
    requires Accepts(Some(p))
    ensures NewFrame(serial, p).src == p.embedUrl.value
    ensures NewFrame(serial, p).sandbox == "allow-scripts allow-same-origin allow-forms allow-popups"
    ensures NewFrame(serial, p).title == p.title + " - Interactive Sketch"
    ensures NewFrame(serial, p).ariaLabel == p.description
  {
  }

  /** Clearing a handle from at most one armed timeout removes it exactly when the handles match. */
  lemma DisarmShort(ts: seq<LoadTimer>, h: nat)
    requires |ts| <= 1
    ensures Disarm(ts, h) == if ts != [] && ts[0].handle == h then [] else ts
  {
    if ts != [] { assert ts[1..] == []; }
  }

  /** Removing the owned iframe from a well-shaped container leaves at most the error panel, which stays first. */
  lemma {:induction false} DetachShape(c: seq<Child>, iframe: Option<Frame>)
    requires ContainerShape(c, iframe)
    ensures var kept := if iframe.Some? then Detach(c, iframe.value) else c;
      Residue(kept) && RetryTarget(kept) == RetryTarget(c) && LiveFrames(kept) == 0
  {
    if iframe.Some? && c != [] {
      var f := iframe.value;
      if |c| == 1 {
        assert c[1..] == [] && Detach(c[1..], f) == [];
        if c[0].ErrorPanel? {
          assert Detach(c, f) == [c[0]];
          assert [c[0]][1..] == [];
        } else {
          assert Detach(c, f) == [];
        }
      } else {
        assert c[1..] == [FrameChild(f)] && c[1..][1..] == [];
        assert Detach(c[1..], f) == [] + Detach(c[1..][1..], f);
        assert Detach(c, f) == [c[0]];
        assert [c[0]][1..] == [];
      }
    } else if c != [] {
      assert c[1..] == [];
    }
  }

  /** Appending an iframe to an empty container or to the error panel gives a well-shaped container with one iframe. */
  lemma AppendFrame(kept: seq<Child>, f: Frame)
    requires Residue(kept)
    ensures ContainerShape(kept + [FrameChild(f)], Some(f))
    ensures LiveFrames(kept + [FrameChild(f)]) == 1
    ensures RetryTarget(kept + [FrameChild(f)]) == RetryTarget(kept)
  {
    var c := kept + [FrameChild(f)];
    if kept == [] {
      assert c == [FrameChild(f)] && c[1..] == [];
    } else {
      assert c == [kept[0], FrameChild(f)];
      assert c[1..] == [FrameChild(f)] && c[1..][1..] == [];
      assert LiveFrames(c[1..]) == 1 + LiveFrames(c[1..][1..]);
    }
  }

  /** `if (this.loadTimeout) { clearTimeout(this.loadTimeout); this.loadTimeout = null; }` */
  function ClearLoadTimeout(s: ModalState): ModalState {
    if s.loadTimeout.Some?
    then s.(armedTimeouts := Disarm(s.armedTimeouts, s.loadTimeout.value), loadTimeout := None)
    else s
  }

  /** Clearing the timeout leaves none armed when the handle named the one armed timeout, and changes nothing else. */
  lemma ClearLoadTimeoutEffect(s: ModalState)
    requires TimerShape(s.armedTimeouts, s.loadTimeout)
    ensures ClearLoadTimeout(s) == s.(armedTimeouts := [], loadTimeout := None)
  {
    if s.loadTimeout.Some? {
      DisarmShort(s.armedTimeouts, s.loadTimeout.value);
    }
  }

  /** The first statement of createIframe and of the deferred cleanup: remove the owned iframe and forget it. */
  function Detached(s: ModalState): ModalState {
    if s.iframe.Some?
    then s.(embedChildren := Detach(s.embedChildren, s.iframe.value), iframe := None)
    else s
  }

  /** On a well-shaped container, removing the iframe leaves at most the error panel and changes nothing else. */
  lemma RemoveIframeEffect(s: ModalState)
    requires ContainerShape(s.embedChildren, s.iframe)
    ensures var r := Detached(s);
      && Residue(r.embedChildren) && RetryTarget(r.embedChildren) == RetryTarget(s.embedChildren)
      && LiveFrames(r.embedChildren) == 0
      && r == s.(embedChildren := r.embedChildren, iframe := None)
  {
    DetachShape(s.embedChildren, s.iframe);
  }

  /** The rest of createIframe: build the iframe, arm its load timeout, append it to the container. */
  function Attached(s: ModalState, p: Project): ModalState {
    var f := NewFrame(s.nextId, p);
    s.(iframe := Some(f),
       armedTimeouts := s.armedTimeouts + [LoadTimer(s.nextId, p)],
       loadTimeout := Some(s.nextId),
       embedChildren := if s.elems.embed then s.embedChildren + [FrameChild(f)] else s.embedChildren,
       nextId := s.nextId + 1)
  }

  /** createIframe: remove the previous iframe, clear the previous timeout, attach a new iframe. */
  function CreateIframeStep(s: ModalState, p: Project): (r: ModalState)
    ensures r.iframe == Some(NewFrame(s.nextId, p)) && r.loadTimeout == Some(s.nextId)
    ensures r.nextId == s.nextId + 1
    ensures |r.armedTimeouts| > 0 && r.armedTimeouts[|r.armedTimeouts| - 1] == LoadTimer(s.nextId, p)
  {
    Attached(ClearLoadTimeout(Detached(s)), p)
  }

  /**
   * After createIframe exactly one iframe is live (when the container exists)
   * and exactly one timeout is armed, both for `p`; the error panel, if shown,
   * stays in front of the new iframe, and nothing outside the iframe, the
   * timers and the container changes.
   */
  lemma CreateIframeEffect(s: ModalState, p: Project)
    requires ContainerShape(s.embedChildren, s.iframe) && TimerShape(s.armedTimeouts, s.loadTimeout)
    ensures var r := CreateIframeStep(s, p);
      && r.iframe == Some(NewFrame(s.nextId, p)) && r.loadTimeout == Some(s.nextId)
      && r.armedTimeouts == [LoadTimer(s.nextId, p)]
      && ContainerShape(r.embedChildren, r.iframe)
      && LiveFrames(r.embedChildren) == (if s.elems.embed then 1 else 0)
      && RetryTarget(r.embedChildren) == RetryTarget(s.embedChildren)
      && (s.elems.embed ==> FrameChild(NewFrame(s.nextId, p)) in r.embedChildren)
      && r == s.(embedChildren := r.embedChildren, iframe := r.iframe,
                 armedTimeouts := r.armedTimeouts, loadTimeout := r.loadTimeout,
                 nextId := s.nextId + 1)
  {
    var s1 := Detached(s);
    RemoveIframeEffect(s);
    var s2 := ClearLoadTimeout(s1);
    ClearLoadTimeoutEffect(s1);
    var f := NewFrame(s.nextId, p);
    var r := Attached(s2, p);
    assert r.armedTimeouts == [] + [LoadTimer(s.nextId, p)];
    if s.elems.embed {
      AppendFrame(s2.embedChildren, f);
      assert r.embedChildren[|r.embedChildren| - 1] == FrameChild(f);
    }
  }

  /** createIframe, run on a state satisfying the invariant with the modal cached and an accepted record, keeps it. */
  lemma CreateIframeKeepsInv(s: ModalState, p: Project)
    requires Inv(s) && s.elems.modal && Accepts(Some(p))
    ensures Inv(CreateIframeStep(s, p))
  {
    CreateIframeEffect(s, p);
  }

  /** The first part of open: note the trigger and the id, and set the title. */
  function Noted(s: ModalState, p: Project, trigger: Option<Element>): ModalState {
    s.(triggerElement := trigger, currentProjectId := Some(p.id),
       titleText := if s.elems.title then p.title else s.titleText)
  }

  /** The state open hands to createIframe: the dialog shown, scrolling blocked, loading displayed. */
  function Shown(s: ModalState): ModalState {
    s.(dataState := StateOpen, ariaHidden := HiddenFalse, bodyOverflow := OverflowHidden,
       loadingDisplay := if s.elems.loading then DisplayFlex else s.loadingDisplay,
       embedDisplay := if s.elems.embed then DisplayNone else s.embedDisplay)
  }

  /** open(projectData, triggerElement). */
  function OpenStep(s: ModalState, record: Option<Project>, trigger: Option<Element>): (r: ModalState)
    ensures !Accepts(record) ==> r == s
    ensures r.doc == s.doc && r.elems == s.elems && r.listening == s.listening
    ensures r.nextId >= s.nextId
  {
    if !Accepts(record) then s
    else if !s.elems.modal then Noted(s, record.value, trigger)  // this.modal is null: setAttribute throws here
    else
      var s3 := CreateIframeStep(Shown(Noted(s, record.value, trigger)), record.value);
      s3.(pendingFocus := s3.pendingFocus + 1)
  }

  /** open keeps the invariant, whatever record it is given. */
  lemma OpenKeepsInv(s: ModalState, record: Option<Project>, trigger: Option<Element>)
    requires Inv(s)
    ensures Inv(OpenStep(s, record, trigger))
  {
    if Accepts(record) && s.elems.modal {
      CreateIframeKeepsInv(Shown(Noted(s, record.value, trigger)), record.value);
    }
  }

  /** What a valid open does on an initialised manager. */
  lemma OpenShowsDialog(s: ModalState, record: Option<Project>, trigger: Option<Element>)
    requires Inv(s) && s.elems.modal && Accepts(record)
    ensures var r := OpenStep(s, record, trigger);
      && r.dataState == StateOpen && r.ariaHidden == HiddenFalse
      && r.bodyOverflow == OverflowHidden
      && (s.elems.loading ==> r.loadingDisplay == DisplayFlex)
      && (s.elems.embed ==> r.embedDisplay == DisplayNone)
      && r.currentProjectId == Some(record.value.id)
      && r.triggerElement == trigger
      && (s.elems.title ==> r.titleText == record.value.title)
      && r.iframe == Some(NewFrame(s.nextId, record.value))
      && r.armedTimeouts == [LoadTimer(s.nextId, record.value)]
      && LiveFrames(r.embedChildren) == (if s.elems.embed then 1 else 0)
      && r.pendingFocus == s.pendingFocus + 1
      && r.pendingCleanups == s.pendingCleanups
  {
    CreateIframeEffect(Shown(Noted(s, record.value, trigger)), record.value);
  }

  /** handleIframeLoad: clears the timeout, hides the loading indicator and shows the embed. */
  function LoadStep(s: ModalState): (r: ModalState)
    ensures r.loadTimeout.None?
    ensures s.elems.loading ==> r.loadingDisplay == DisplayNone
    ensures r.doc == s.doc && r.nextId == s.nextId
    ensures s.elems.embed ==> r.embedDisplay == DisplayBlock
  {
    Revealed(ClearLoadTimeout(s))
  }

  /** The rest of handleIframeLoad: hide the loading indicator, show the embed container. */
  function Revealed(s: ModalState): ModalState {
    s.(loadingDisplay := if s.elems.loading then DisplayNone else s.loadingDisplay,
       embedDisplay := if s.elems.embed then DisplayBlock else s.embedDisplay)
  }

  /** The load handler keeps the invariant, disarms the timeout and leaves the container as it was. */
  lemma LoadKeepsInv(s: ModalState)
    requires Inv(s)
    ensures var r := LoadStep(s);
      Inv(r) && r.armedTimeouts == [] && r.embedChildren == s.embedChildren && r.iframe == s.iframe
  {
    ClearLoadTimeoutEffect(s);
  }

  /**
   * handleIframeError: clears the timeout, hides the loading indicator and
   * replaces the container's children with the error panel, leaving `this.iframe`
   * pointing at the iframe the panel displaced.
   */
  function ErrorStep(s: ModalState, p: Project): (r: ModalState)
    ensures r.loadTimeout.None? && r.iframe == s.iframe
    ensures s.elems.loading ==> r.loadingDisplay == DisplayNone
    ensures r.doc == s.doc && r.nextId == s.nextId
    ensures s.elems.embed ==> r.embedDisplay == DisplayBlock && RetryTarget(r.embedChildren) == Some(p)
    ensures s.elems.embed ==> r.embedChildren == [ErrorPanel(p, UrlText(p.embedUrl))]
    ensures !s.elems.embed ==> r.embedChildren == s.embedChildren
  {
    ErrorShown(ClearLoadTimeout(s), p)
  }

  /** The error panel's "Open in New Tab" link leads to the record's own sketch. */
  lemma ErrorPanelLinksToSketch(s: ModalState, p: Project)
    requires s.elems.embed && Accepts(Some(p))
    ensures ErrorStep(s, p).embedChildren == [ErrorPanel(p, p.embedUrl.value)]
  {
  }

  /** The rest of handleIframeError: hide the loading indicator, put the error panel in the container. */
  function ErrorShown(s: ModalState, p: Project): ModalState {
    var s1 := s.(loadingDisplay := if s.elems.loading then DisplayNone else s.loadingDisplay);
    if s.elems.embed
    then s1.(embedChildren := [ErrorPanel(p, UrlText(p.embedUrl))], embedDisplay := DisplayBlock)
    else s1
  }

  /**
   * handleIframeError for a record that passed open's guard keeps the invariant;
   * afterwards no timeout is armed and no iframe is live.
   */
  lemma ErrorKeepsInv(s: ModalState, p: Project)
    requires Inv(s) && Accepts(Some(p))
    ensures var r := ErrorStep(s, p);
      Inv(r) && r.armedTimeouts == [] && (s.elems.embed ==> LiveFrames(r.embedChildren) == 0)
  {
    ClearLoadTimeoutEffect(s);
    if s.elems.embed {
      assert [ErrorPanel(p, UrlText(p.embedUrl))][1..] == [];
    }
  }

  /** The armed timeout `t` fires: it is no longer armed, and handleLoadTimeout runs. */
  function TimeoutStep(s: ModalState, t: LoadTimer): (r: ModalState)
    requires t in s.armedTimeouts
    ensures r.loadTimeout.None? && r.iframe == s.iframe
  {
    ErrorStep(s.(armedTimeouts := Disarm(s.armedTimeouts, t.handle)), t.project)
  }

  /** The armed timeout firing does exactly what handleIframeError does for the record it captured. */
  lemma TimeoutIsError(s: ModalState, t: LoadTimer)
    requires TimerShape(s.armedTimeouts, s.loadTimeout) && t in s.armedTimeouts
    ensures TimeoutStep(s, t) == ErrorStep(s, t.project)
  {
    assert s.armedTimeouts == [t];
    assert Disarm([t], t.handle) == [];
    var fired := s.(armedTimeouts := []);
    ClearLoadTimeoutEffect(s);
    assert ClearLoadTimeout(fired) == ClearLoadTimeout(s) by {
      assert Disarm([], s.loadTimeout.value) == [];
    }
  }

  lemma TimeoutKeepsInv(s: ModalState, t: LoadTimer)
    requires Inv(s) && t in s.armedTimeouts
    ensures Inv(TimeoutStep(s, t))
  {
    TimeoutIsError(s, t);
    ErrorKeepsInv(s, t.project);
  }

  /** The retry button's handler: empty the container and run createIframe again for the same record. */
  function RetryStep(s: ModalState, p: Project): (r: ModalState)
    ensures r.embedChildren == (if s.elems.embed then [FrameChild(NewFrame(s.nextId, p))] else [])
    ensures r.iframe == Some(NewFrame(s.nextId, p)) && r.loadTimeout == Some(s.nextId)
  {
    var s1 := s.(embedChildren := []);
    assert Detached(s1).embedChildren == [];
    CreateIframeStep(s1, p)
  }

  /**
   * A retry keeps the invariant, leaves the dialog's attributes, the page and
   * the indicators alone, and replaces the error panel by one new iframe and
   * one new armed timeout for the same record.
   */
  lemma RetryKeepsInv(s: ModalState, p: Project)
    requires Inv(s) && s.elems.modal && Accepts(Some(p))
    ensures var r := RetryStep(s, p);
      && Inv(r)
      && r.dataState == s.dataState && r.ariaHidden == s.ariaHidden
      && r.bodyOverflow == s.bodyOverflow && r.currentProjectId == s.currentProjectId
      && r.triggerElement == s.triggerElement
      && r.loadingDisplay == s.loadingDisplay && r.embedDisplay == s.embedDisplay
      && r.embedChildren == (if s.elems.embed then [FrameChild(NewFrame(s.nextId, p))] else [])
      && r.armedTimeouts == [LoadTimer(s.nextId, p)]
  {
    var s1 := s.(embedChildren := []);
    CreateIframeEffect(s1, p);
    CreateIframeKeepsInv(s1, p);
    assert Detached(s1).embedChildren == [];
  }

  /** close: hide the dialog, restore scrolling, clear the timeout, schedule the cleanup, return focus. */
  function CloseStep(s: ModalState): (r: ModalState)
    ensures !s.elems.modal ==> r == s
    ensures r.doc == s.doc && r.nextId == s.nextId
    ensures s.elems.modal ==>
      && r.dataState == StateClosed && r.ariaHidden == HiddenTrue && r.bodyOverflow == OverflowDefault
      && r.triggerElement.None? && r.currentProjectId.None?
      && r.pendingCleanups == s.pendingCleanups + 1
      && r.focused == (if s.triggerElement.Some? then s.triggerElement else s.focused)
      && r.loadTimeout.None?
      && r.embedChildren == s.embedChildren && r.iframe == s.iframe
  {
    if !s.elems.modal then s  // this.modal is null: setAttribute throws here
    else Released(ClearLoadTimeout(Hidden(s)))
  }

  /** The first part of close: hide the dialog and restore page scrolling. */
  function Hidden(s: ModalState): ModalState {
    s.(dataState := StateClosed, ariaHidden := HiddenTrue, bodyOverflow := OverflowDefault)
  }

  /** The last part of close: schedule the cleanup, return focus to the trigger, forget the project. */
  function Released(s: ModalState): ModalState {
    s.(pendingCleanups := s.pendingCleanups + 1,
       focused := if s.triggerElement.Some? then s.triggerElement else s.focused,
       triggerElement := None,
       currentProjectId := None)
  }

  /** close keeps the invariant and leaves no timeout armed. */
  lemma CloseKeepsInv(s: ModalState)
    requires Inv(s)
    ensures Inv(CloseStep(s)) && CloseStep(s).armedTimeouts == []
  {
    ClearLoadTimeoutEffect(Hidden(s));
  }

  /** The deferred cleanup scheduled by close runs: remove the iframe, empty and hide the container, show loading. */
  function CleanupStep(s: ModalState): (r: ModalState)
    requires s.pendingCleanups > 0
    ensures r.iframe.None? && r.pendingCleanups == s.pendingCleanups - 1
    ensures r.doc == s.doc && r.nextId == s.nextId
    ensures s.elems.embed ==> r.embedDisplay == DisplayNone && r.embedChildren == []
    ensures s.elems.loading ==> r.loadingDisplay == DisplayFlex
    ensures r.armedTimeouts == s.armedTimeouts && r.loadTimeout == s.loadTimeout
    ensures r.dataState == s.dataState && r.ariaHidden == s.ariaHidden
  {
    Emptied(Detached(s.(pendingCleanups := s.pendingCleanups - 1)))
  }

  /** The rest of the cleanup: empty and hide the container, show the loading indicator again. */
  function Emptied(s: ModalState): ModalState {
    var s1 := if s.elems.embed then s.(embedChildren := [], embedDisplay := DisplayNone) else s;
    if s.elems.loading then s1.(loadingDisplay := DisplayFlex) else s1
  }

  /** The cleanup keeps the invariant and always leaves the container empty. */
  lemma CleanupKeepsInv(s: ModalState)
    requires Inv(s) && s.pendingCleanups > 0
    ensures Inv(CleanupStep(s))
    ensures CleanupStep(s).embedChildren == []
  {
    RemoveIframeEffect(s.(pendingCleanups := s.pendingCleanups - 1));
  }

  /** The 100 ms focus callback scheduled by open runs. */
  function FocusStep(s: ModalState): (r: ModalState)
    requires s.pendingFocus > 0
    ensures r.focused == (if s.elems.close then Some(CloseControl) else s.focused)
    ensures r == s.(pendingFocus := s.pendingFocus - 1, focused := r.focused)
  {
    s.(pendingFocus := s.pendingFocus - 1,
       focused := if s.elems.close then Some(CloseControl) else s.focused)
  }

  lemma FocusKeepsInv(s: ModalState)
    requires Inv(s) && s.pendingFocus > 0
    ensures Inv(FocusStep(s))
  {
  }

  /** The document's keydown listener: Escape closes the modal while data-state is 'open'. */
  function KeyDownStep(s: ModalState, key: string): (r: ModalState)
    ensures r == s || r == CloseStep(s)
  {
    if s.listening && key == "Escape" && s.dataState == StateOpen then CloseStep(s) else s
  }

  /**
   * A keydown listener wired a second time re-reads data-state, so a second
   * Escape handler finds the dialog already closed and does nothing.
   */
  lemma EscapeTwiceIsEscapeOnce(s: ModalState)
    requires Inv(s)
    ensures KeyDownStep(KeyDownStep(s, "Escape"), "Escape") == KeyDownStep(s, "Escape")
  {
  }

  lemma KeyDownKeepsInv(s: ModalState, key: string)
    requires Inv(s)
    ensures Inv(KeyDownStep(s, key))
  {
    CloseKeepsInv(s);
  }

  /** Escape closes the modal exactly when it is wired and open; any other key, or a closed modal, changes nothing. */
  lemma EscapeOnlyWhenOpen(s: ModalState, key: string)
    requires Inv(s)
    ensures key != "Escape" || s.dataState != StateOpen || !s.listening ==> KeyDownStep(s, key) == s
    ensures key == "Escape" && s.dataState == StateOpen && s.listening ==>
      KeyDownStep(s, key).dataState == StateClosed && KeyDownStep(s, key).armedTimeouts == []
  {
    CloseKeepsInv(s);
  }

  /** init: cache the parts and wire the listeners, or report that #project-modal is missing. */
  function InitStep(s: ModalState): (r: ModalState)
    ensures !s.doc.parts.modal ==> !r.elems.modal && r.listening == s.listening
    ensures s.doc.parts.modal ==> r.listening && r.elems == s.doc.parts
    ensures r == s.(elems := r.elems, listening := r.listening)
  {
    if !s.doc.parts.modal then s.(elems := s.elems.(modal := false))
    else s.(elems := s.doc.parts, listening := true)
  }

  /** init keeps the invariant; on a document without the modal it changes nothing. */
  lemma InitKeepsInv(s: ModalState)
    requires Inv(s)
    ensures Inv(InitStep(s))
    ensures !s.doc.parts.modal ==> InitStep(s) == s
  {
  }

  /** The events the page and the timers deliver to the manager. */
  datatype Event =
    | InitCalled
    | OpenCalled(record: Option<Project>, trigger: Option<Element>)
    | FrameLoaded(frame: Frame)
    | FrameFailed(frame: Frame)
    | TimeoutFired(timer: LoadTimer)
    | RetryClicked
    | CloseCalled
    | CloseControlClicked
    | BackdropClicked
    | KeyPressed(key: string)
    | CleanupFired
    | FocusFired

  /**
   * Whether the environment can deliver `e` now. Only an iframe attached to the
   * container fires load or error (a detached iframe loads nothing), only an
   * armed timeout fires, and the retry button exists only inside the error panel.
   * Under the invariant, a timeout that can fire is the one `this.loadTimeout`
   * names, and it was set for a record open accepts.
   */
  predicate Enabled(s: ModalState, e: Event)
    ensures Inv(s) && Enabled(s, e) && e.TimeoutFired? ==>
      s.loadTimeout == Some(e.timer.handle) && Accepts(Some(e.timer.project))
  {
    match e
    case FrameLoaded(f) => FrameChild(f) in s.embedChildren
    case FrameFailed(f) => FrameChild(f) in s.embedChildren
    case TimeoutFired(t) => t in s.armedTimeouts
    case RetryClicked => RetryTarget(s.embedChildren).Some?
    case CleanupFired => s.pendingCleanups > 0
    case FocusFired => s.pendingFocus > 0
    case _ => true
  }

  /** What event `e` does; no event changes the document, and serials and handles only grow. */
  function Step(s: ModalState, e: Event): (r: ModalState)
    requires Enabled(s, e)
    ensures r.doc == s.doc && r.nextId >= s.nextId
  {
    match e
    case InitCalled => InitStep(s)
    case OpenCalled(record, trigger) => OpenStep(s, record, trigger)
    case FrameLoaded(_) => LoadStep(s)
    case FrameFailed(f) => ErrorStep(s, f.project)
    case TimeoutFired(t) => TimeoutStep(s, t)
    case RetryClicked => RetryStep(s, RetryTarget(s.embedChildren).value)
    case CloseCalled => CloseStep(s)
    case CloseControlClicked => if s.listening && s.elems.close then CloseStep(s) else s
    case BackdropClicked => if s.listening && s.elems.backdrop then CloseStep(s) else s
    case KeyPressed(key) => KeyDownStep(s, key)
    case CleanupFired => CleanupStep(s)
    case FocusFired => FocusStep(s)
  }

  /** Under the invariant, an iframe that can fire load or error is the one `this.iframe` names. */
  lemma FiringFrameIsOwned(s: ModalState, e: Event)
    requires Inv(s) && Enabled(s, e) && (e.FrameLoaded? || e.FrameFailed?)
    ensures s.iframe == Some(e.frame)
  {
    OneFrameOneTimer(s);
  }

  /** Every event keeps the invariant. */
  lemma StepKeepsInv(s: ModalState, e: Event)
    requires Inv(s) && Enabled(s, e)
    ensures Inv(Step(s, e))
  {
    match e
    case InitCalled => InitKeepsInv(s);
    case OpenCalled(record, trigger) => OpenKeepsInv(s, record, trigger);
    case FrameLoaded(_) => LoadKeepsInv(s);
    case FrameFailed(f) =>
      // only the owned iframe is attached, and its record passed open's guard
      OneFrameOneTimer(s);
      ErrorKeepsInv(s, f.project);
    case TimeoutFired(t) => TimeoutKeepsInv(s, t);
    case RetryClicked => RetryKeepsInv(s, RetryTarget(s.embedChildren).value);
    case CloseCalled => CloseKeepsInv(s);
    case CloseControlClicked => CloseKeepsInv(s);
    case BackdropClicked => CloseKeepsInv(s);
    case KeyPressed(key) => KeyDownKeepsInv(s, key);
    case CleanupFired => CleanupKeepsInv(s);
    case FocusFired => FocusKeepsInv(s);
  }

  /** A sequence of events each enabled in the state the previous ones produced. */
  predicate ValidRun(s: ModalState, evs: seq<Event>)
    decreases |evs|
  {
    evs == [] || (Enabled(s, evs[0]) && ValidRun(Step(s, evs[0]), evs[1..]))
  }

  function Run(s: ModalState, evs: seq<Event>): ModalState
    requires ValidRun(s, evs)
    decreases |evs|
  {
    if evs == [] then s else Run(Step(s, evs[0]), evs[1..])
  }

  /** Every run from a state satisfying the invariant ends in one satisfying it. */
  lemma {:induction false} RunKeepsInv(s: ModalState, evs: seq<Event>)
    requires Inv(s) && ValidRun(s, evs)
    ensures Inv(Run(s, evs))
    decreases |evs|
  {
    if evs != [] {
      StepKeepsInv(s, evs[0]);
      RunKeepsInv(Step(s, evs[0]), evs[1..]);
    }
  }

  /** However the page drives it, the manager never has two live iframes or two armed load timeouts. */
  lemma AtMostOneFrameAndTimeout(doc: Page, evs: seq<Event>)
    requires ValidRun(Initial(doc), evs)
    ensures LiveFrames(Run(Initial(doc), evs).embedChildren) <= 1
    ensures |Run(Initial(doc), evs).armedTimeouts| <= 1
  {
    RunKeepsInv(Initial(doc), evs);
    OneFrameOneTimer(Run(Initial(doc), evs));
  }

  /** An event that runs createIframe (a valid open or a retry click). */
  predicate Arms(e: Event) {
    e.OpenCalled? || e.RetryClicked?
  }

  /**
   * After a load event no load timeout is armed, and none can fire before the
   * next open or retry arms a new one.
   */
  lemma {:induction false} LoadSilencesTimeouts(s: ModalState, evs: seq<Event>)
    requires s.armedTimeouts == [] && ValidRun(s, evs)
    requires forall i :: 0 <= i < |evs| ==> !Arms(evs[i])
    ensures Run(s, evs).armedTimeouts == []
    ensures forall i :: 0 <= i < |evs| ==> !evs[i].TimeoutFired?
    decreases |evs|
  {
    if evs != [] {
      var s1 := Step(s, evs[0]);
      assert s1.armedTimeouts == [] by {
        match evs[0]
        case CloseCalled =>
        case CloseControlClicked =>
        case BackdropClicked =>
        case KeyPressed(_) =>
        case _ =>
      }
      forall i | 0 <= i < |evs[1..]| ensures !Arms(evs[1..][i]) {
        assert evs[1..][i] == evs[i + 1];
      }
      LoadSilencesTimeouts(s1, evs[1..]);
      forall i | 0 <= i < |evs| ensures !evs[i].TimeoutFired? {
        if i > 0 { assert evs[i] == evs[1..][i - 1]; }
      }
    }
  }

  /** The load event itself leaves no armed timeout, so the lemma above applies right after it. */
  lemma LoadThenNoTimeout(s: ModalState, f: Frame, evs: seq<Event>)
    requires Inv(s) && Enabled(s, FrameLoaded(f))
    requires ValidRun(Step(s, FrameLoaded(f)), evs)
    requires forall i :: 0 <= i < |evs| ==> !Arms(evs[i])
    ensures Run(Step(s, FrameLoaded(f)), evs).armedTimeouts == []
    ensures forall i :: 0 <= i < |evs| ==> !evs[i].TimeoutFired?
  {
    LoadKeepsInv(s);
    LoadSilencesTimeouts(Step(s, FrameLoaded(f)), evs);
  }

  /**
   * A timeout and an error signal from the iframe lead to the same state: both
   * clear the timeout, hide loading and show the same error panel.
   */
  lemma TimeoutMatchesError(s: ModalState, t: LoadTimer, f: Frame)
    requires Inv(s)
    requires Enabled(s, TimeoutFired(t)) && Enabled(s, FrameFailed(f))
    ensures Step(s, TimeoutFired(t)) == Step(s, FrameFailed(f))
    ensures Step(s, TimeoutFired(t)) == ErrorStep(s, t.project)
  {
    OneFrameOneTimer(s);
    TimeoutIsError(s, t);
  }

  /** Closing twice leaves every field as closing once does, except that two cleanups are pending. */
  lemma CloseTwiceIsCloseOnce(s: ModalState)
    requires Inv(s)
    ensures CloseStep(CloseStep(s)) == CloseStep(s).(pendingCleanups := CloseStep(s).pendingCleanups
      + (if s.elems.modal then 1 else 0))
  {
  }

  /** Close followed by its cleanup resets everything the manager owns. */
  lemma CloseThenCleanupResets(s: ModalState)
    requires Inv(s) && s.elems.modal
    ensures var r := CleanupStep(CloseStep(s));
      && r.dataState == StateClosed && r.ariaHidden == HiddenTrue && r.bodyOverflow == OverflowDefault
      && r.armedTimeouts == [] && r.loadTimeout.None?
      && r.iframe.None? && r.embedChildren == []
      && (s.elems.embed ==> r.embedDisplay == DisplayNone)
      && (s.elems.loading ==> r.loadingDisplay == DisplayFlex)
      && r.triggerElement.None? && r.currentProjectId.None?
      && r.pendingCleanups == s.pendingCleanups
  {
    var closed := CloseStep(s);
    CloseKeepsInv(s);
    CleanupKeepsInv(closed);
    var r := CleanupStep(closed);
    assert r.triggerElement == closed.triggerElement && r.currentProjectId == closed.currentProjectId;
    assert r.ariaHidden == closed.ariaHidden && r.bodyOverflow == closed.bodyOverflow;
  }

  /**
   * The cleanup scheduled by close is not cancelled by a later open: if it
   * fires after a reopen, it removes the new iframe while the dialog is open
   * and its load timeout is still armed.
   */
  lemma ReopenBeforeCleanupLosesFrame(s: ModalState, record: Option<Project>, trigger: Option<Element>)
    requires Inv(s) && s.elems.modal && s.elems.embed && Accepts(record)
    ensures var reopened := OpenStep(CloseStep(s), record, trigger);
      && LiveFrames(reopened.embedChildren) == 1
      && reopened.pendingCleanups > 0
      && var r := CleanupStep(reopened);
      && r.dataState == StateOpen
      && r.iframe.None? && LiveFrames(r.embedChildren) == 0
      && |r.armedTimeouts| == 1
  {
    CloseKeepsInv(s);
    OpenShowsDialog(CloseStep(s), record, trigger);
  }

  /** Of the catalogue's records, open accepts all but 'epluribus'. */
  lemma OpenAcceptsAllButEpluribus()
    ensures forall i :: 0 <= i < |ProjectsData()| ==>
      (Accepts(Some(ProjectsData()[i])) <==> ProjectsData()[i].id != "epluribus")
  {
    OnlyEpluribusLacksEmbed();
    RecordsWellFormed();
    var r := ProjectsData();
    forall i | 0 <= i < |r| && r[i].embedUrl.Some? ensures r[i].embedUrl.value != "" {
      assert "https://" <= r[i].embedUrl.value;
    }
  }
}
