/**
 * The `ModalManager` class: the page's single controller for the embed modal.
 * Its fields are the object's own fields together with the DOM state it
 * writes; every method performs the handler's updates in place and is proved
 * to produce the state the matching step function of `ModalSteps` describes,
 * keeping the invariant `Inv`.
 */
module Modal {
  import opened Wrappers
  import opened ProjectData
  import opened ModalSteps

  class ModalManager {
    const document: Page
    var elems: Elements
    var listening: bool
    var dataState: DataState
    var ariaHidden: AriaHidden
    var bodyOverflow: Overflow
    var titleText: string
    var loadingDisplay: Display
    var embedDisplay: Display
    var embedChildren: seq<Child>
    var iframe: Option<Frame>
    var loadTimeout: Option<nat>
    var armedTimeouts: seq<LoadTimer>
    var pendingCleanups: nat
    var pendingFocus: nat
    var focused: Option<Element>
    var currentProjectId: Option<string>
    var triggerElement: Option<Element>
    var nextId: nat

    /** The manager and the DOM it touches, as one value. */
    function State(): ModalState
      reads this
    {
      ModalState(document, elems, listening, dataState, ariaHidden, bodyOverflow, titleText,
                 loadingDisplay, embedDisplay, embedChildren, iframe, loadTimeout, armedTimeouts,
                 pendingCleanups, pendingFocus, focused, currentProjectId, triggerElement, nextId)
    }

    ghost predicate Valid()
      reads this
    {
      Inv(State())
    }

    /** new ModalManager(): every reference null, over the given document. */
    constructor(document: Page)
      ensures Valid() && State() == Initial(document)
    {
      this.document := document;
      elems := NoElements;
      listening := false;
      dataState := document.dataState;
      ariaHidden := document.ariaHidden;
      bodyOverflow := OverflowDefault;
      titleText := "";
      loadingDisplay := DisplayDefault;
      embedDisplay := DisplayDefault;
      embedChildren := [];
      iframe := None;
      loadTimeout := None;
      armedTimeouts := [];
      pendingCleanups := 0;
      pendingFocus := 0;
      focused := None;
      currentProjectId := None;
      triggerElement := None;
      nextId := 1;
    }

    /** init: false, with nothing cached or wired, when the document has no #project-modal. */
    method Init() returns (ok: bool)
      requires Valid()
      modifies this
      ensures Valid() && State() == InitStep(old(State()))
      ensures ok == document.parts.modal
      ensures !ok ==> State() == old(State())
    {
      InitKeepsInv(State());
      elems := elems.(modal := document.parts.modal);
      if !document.parts.modal {
        return false;
      }
      elems := document.parts;
      listening := true;  // setupEventListeners
      return true;
    }

    /** open: ignored for a record the guard rejects; otherwise shows the dialog and starts loading. */
    method Open(record: Option<Project>, trigger: Option<Element>)
      requires Valid()
      modifies this
      ensures Valid() && State() == OpenStep(old(State()), record, trigger)
    {
      OpenKeepsInv(State(), record, trigger);
      if !Accepts(record) {
        return;
      }
      var p := record.value;
      NoteProject(p, trigger);
      if !elems.modal {
        return;  // this.modal is null: setAttribute throws
      }
      ShowDialog();
      CreateIframe(p);
      pendingFocus := pendingFocus + 1;  // the 100 ms focus callback
    }

    /** The first part of open: remember the trigger and the id, set the title. */
    method NoteProject(p: Project, trigger: Option<Element>)
      modifies this
      ensures State() == Noted(old(State()), p, trigger)
    {
      triggerElement := trigger;
      currentProjectId := Some(p.id);
      if elems.title {
        titleText := p.title;
      }
    }

    /** The middle of open: show the dialog, block page scrolling, show the loading indicator. */
    method ShowDialog()
      modifies this
      ensures State() == Shown(old(State()))
    {
      dataState := StateOpen;
      ariaHidden := HiddenFalse;
      bodyOverflow := OverflowHidden;
      if elems.loading {
        loadingDisplay := DisplayFlex;
      }
      if elems.embed {
        embedDisplay := DisplayNone;
      }
    }

    /**
     * createIframe: drop the previous iframe, clear the previous timeout, then
     * build the new iframe, arm its load timeout and append it. Called by open
     * and by the retry button, each of which keeps the invariant around it.
     */
    method CreateIframe(p: Project)
      modifies this
      ensures State() == CreateIframeStep(old(State()), p)
    {
      RemoveIframe();
      if loadTimeout.Some? {
        armedTimeouts := Disarm(armedTimeouts, loadTimeout.value);
      }
      assert State() == ClearLoadTimeout(Detached(old(State())))
                        .(loadTimeout := loadTimeout);
      AttachIframe(p);
    }

    /** `this.iframe.remove(); this.iframe = null;`, when there is an iframe. */
    method RemoveIframe()
      modifies this
      ensures State() == Detached(old(State()))
    {
      if iframe.Some? {
        embedChildren := Detach(embedChildren, iframe.value);
        iframe := None;
      }
    }

    /** The end of createIframe: the new iframe, its armed load timeout, and the append. */
    method AttachIframe(p: Project)
      modifies this
      ensures State() == Attached(old(State()), p)
    {
      var f := NewFrame(nextId, p);
      iframe := Some(f);
      armedTimeouts := armedTimeouts + [LoadTimer(nextId, p)];
      loadTimeout := Some(nextId);
      if elems.embed {
        embedChildren := embedChildren + [FrameChild(f)];
      }
      nextId := nextId + 1;
    }

    /** The timeout-clearing block that opens handleIframeLoad, handleIframeError and close. */
    method ClearLoadTimeoutField()
      modifies this
      ensures State() == ClearLoadTimeout(old(State()))
    {
      if loadTimeout.Some? {
        armedTimeouts := Disarm(armedTimeouts, loadTimeout.value);
        loadTimeout := None;
      }
    }

    /** handleIframeLoad. */
    method HandleIframeLoad()
      requires Valid()
      modifies this
      ensures Valid() && State() == LoadStep(old(State()))
    {
      LoadKeepsInv(State());
      ClearLoadTimeoutField();
      Reveal();
    }

    /** The rest of handleIframeLoad: hide the loading indicator, show the embed container. */
    method Reveal()
      modifies this
      ensures State() == Revealed(old(State()))
    {
      if elems.loading {
        loadingDisplay := DisplayNone;
      }
      if elems.embed {
        embedDisplay := DisplayBlock;
      }
    }

    /** handleIframeError, for the record captured by the listener or timer that fired. */
    method HandleIframeError(p: Project)
      requires Valid() && Accepts(Some(p))
      modifies this
      ensures Valid() && State() == ErrorStep(old(State()), p)
    {
      ErrorKeepsInv(State(), p);
      ClearLoadTimeoutField();
      ShowError(p);
    }

    /** The rest of handleIframeError: hide the loading indicator, replace the container's content by the error panel. */
    method ShowError(p: Project)
      modifies this
      ensures State() == ErrorShown(old(State()), p)
    {
      if elems.loading {
        loadingDisplay := DisplayNone;
      }
      if elems.embed {
        embedChildren := [ErrorPanel(p, UrlText(p.embedUrl))];
        embedDisplay := DisplayBlock;
      }
    }

    /** handleLoadTimeout: delegates to handleIframeError. */
    method HandleLoadTimeout(p: Project)
      requires Valid() && Accepts(Some(p))
      modifies this
      ensures Valid() && State() == ErrorStep(old(State()), p)
    {
      HandleIframeError(p);
    }

    /**
     * The armed timeout `t` fires. The timer it names is spent, so the
     * clearTimeout inside handleIframeError removes nothing more; the outcome is
     * the state `TimeoutStep` describes.
     */
    method LoadTimeoutFires(t: LoadTimer)
      requires Valid() && t in armedTimeouts
      modifies this
      ensures Valid() && State() == TimeoutStep(old(State()), t)
    {
      TimeoutIsError(State(), t);
      HandleLoadTimeout(t.project);
    }

    /** The retry button's click handler. */
    method ClickRetry()
      requires Valid() && RetryTarget(embedChildren).Some?
      modifies this
      ensures Valid() && State() == RetryStep(old(State()), RetryTarget(old(embedChildren)).value)
    {
      var p := RetryTarget(embedChildren).value;
      RetryKeepsInv(State(), p);
      embedChildren := [];
      CreateIframe(p);
    }

    /** close. */
    method Close()
      requires Valid()
      modifies this
      ensures Valid() && State() == CloseStep(old(State()))
    {
      CloseKeepsInv(State());
      if !elems.modal {
        return;  // this.modal is null: setAttribute throws
      }
      Hide();
      ClearLoadTimeoutField();
      Release();
    }

    /** The first part of close: hide the dialog and restore page scrolling. */
    method Hide()
      modifies this
      ensures State() == Hidden(old(State()))
    {
      dataState := StateClosed;
      ariaHidden := HiddenTrue;
      bodyOverflow := OverflowDefault;
    }

    /** The last part of close: schedule the cleanup, return focus to the trigger, forget the project. */
    method Release()
      modifies this
      ensures State() == Released(old(State()))
    {
      pendingCleanups := pendingCleanups + 1;  // the 300 ms cleanup callback
      if triggerElement.Some? {
        focused := triggerElement;
        triggerElement := None;
      }
      currentProjectId := None;
    }

    /** The cleanup callback scheduled by close runs. */
    method RunCleanup()
      requires Valid() && pendingCleanups > 0
      modifies this
      ensures Valid() && State() == CleanupStep(old(State()))
    {
      CleanupKeepsInv(State());
      pendingCleanups := pendingCleanups - 1;
      RemoveIframe();
      Empty();
    }

    /** The rest of the cleanup: empty and hide the container, show the loading indicator again. */
    method Empty()
      modifies this
      ensures State() == Emptied(old(State()))
    {
      if elems.embed {
        embedChildren := [];
        embedDisplay := DisplayNone;
      }
      if elems.loading {
        loadingDisplay := DisplayFlex;
      }
    }

    /** The focus callback scheduled by open runs. */
    method RunFocus()
      requires Valid() && pendingFocus > 0
      modifies this
      ensures Valid() && State() == FocusStep(old(State()))
    {
      FocusKeepsInv(State());
      pendingFocus := pendingFocus - 1;
      if elems.close {
        focused := Some(CloseControl);
      }
    }

    /** The document's keydown listener. */
    method KeyDown(key: string)
      requires Valid()
      modifies this
      ensures Valid() && State() == KeyDownStep(old(State()), key)
    {
      if listening && key == "Escape" && dataState == StateOpen {
        Close();
      }
    }
  }
}
