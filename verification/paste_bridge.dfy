/**
  FieldExecPasteBridge of macos/Runner/MainFlutterWindow.swift. The
  application's sendAction is exchanged once with a wrapper. The wrapper lets
  AppKit try the action first. Only when AppKit declines a paste: action does
  it forward the clipboard text to the Flutter view of the key window (or the
  main window) over the "field_exec/paste" method channel.
*/
module PasteBridge {
  import opened Wrappers

  const CHANNEL_NAME: string := "field_exec/paste"
  const PASTE_SELECTOR: string := "paste:"
  const PASTE_METHOD: string := "pasteText"

  /** What a window shows: a Flutter view controller with its engine, or anything else. */
  datatype Content = FlutterContent(engine: nat) | OtherContent

  datatype Window = Window(content: Content)

  /** A method-channel call: engine, channel name, method name and the "text" argument. */
  datatype ChannelMessage = ChannelMessage(engine: nat, channel: string, methodName: string, text: string)

  /** The Bool an action dispatch returns, and the channel call it made, if any. */
  datatype Dispatch = Dispatch(handled: bool, message: Option<ChannelMessage>)

  /**
    handlePaste: a non-empty clipboard string is sent, unchanged, to the
    window's Flutter engine; an empty or missing string, or a window without
    a Flutter view, is declined.
  */
  function HandlePaste(window: Window, clipboard: Option<string>): (r: Dispatch)
    ensures r.handled <==> r.message.Some?
    ensures r.handled <==> clipboard.Some? && clipboard.value != [] && window.content.FlutterContent?
    ensures r.message.Some? ==>
      r.message.value == ChannelMessage(window.content.engine, CHANNEL_NAME, PASTE_METHOD, clipboard.value)
  {
    if clipboard.None? || clipboard.value == [] then Dispatch(false, None)
    else match window.content
      case OtherContent => Dispatch(false, None)
      case FlutterContent(engine) =>
        Dispatch(true, Some(ChannelMessage(engine, CHANNEL_NAME, PASTE_METHOD, clipboard.value)))
  }

  /** The window a paste goes to: the key window, else the main window. */
  function TargetWindow(keyWindow: Option<Window>, mainWindow: Option<Window>): (r: Option<Window>)
    ensures r.None? <==> keyWindow.None? && mainWindow.None?
    ensures keyWindow.Some? ==> r == keyWindow
    ensures keyWindow.None? ==> r == mainWindow
  {
    if keyWindow.Some? then keyWindow else mainWindow
  }

  /**
    fieldExec_sendAction: the original sendAction runs first, and its answer
    stands when it handled the action; otherwise only paste: goes to the
    bridge.
  */
  function FieldExecSendAction(
    appKitHandled: bool, action: string, keyWindow: Option<Window>, mainWindow: Option<Window>,
    clipboard: Option<string>): (r: Dispatch)
    ensures appKitHandled ==> r == Dispatch(true, None)
    ensures action != PASTE_SELECTOR ==> r == Dispatch(appKitHandled, None)
    ensures r.message.Some? ==>
      !appKitHandled && action == PASTE_SELECTOR && TargetWindow(keyWindow, mainWindow).Some?
      && clipboard.Some? && r.message.value.text == clipboard.value && clipboard.value != []
    ensures !appKitHandled && action == PASTE_SELECTOR && TargetWindow(keyWindow, mainWindow).Some? ==>
      r == HandlePaste(TargetWindow(keyWindow, mainWindow).value, clipboard)
    ensures r.handled <==> appKitHandled || r.message.Some?
  {
    if appKitHandled then Dispatch(true, None)
    else if action != PASTE_SELECTOR then Dispatch(false, None)
    else match TargetWindow(keyWindow, mainWindow)
      case None => Dispatch(false, None)
      case Some(window) => HandlePaste(window, clipboard)
  }

  /** The implementations behind the two selectors. */
  datatype Impl = AppKitSendAction | FieldExecWrapper

  /** Which implementation each selector currently runs. */
  datatype MethodTable = MethodTable(sendAction: Impl, fieldExecSendAction: Impl)

  const INITIAL_TABLE: MethodTable := MethodTable(AppKitSendAction, FieldExecWrapper)

  /** method_exchangeImplementations. */
  function Exchange(t: MethodTable): (r: MethodTable)
    ensures r.sendAction == t.fieldExecSendAction && r.fieldExecSendAction == t.sendAction
  {
    MethodTable(t.fieldExecSendAction, t.sendAction)
  }

  /** Exchanging twice restores the table: a second swizzle would undo the first. */
  lemma ExchangeInvolution(t: MethodTable)
    ensures Exchange(Exchange(t)) == t
    ensures t.sendAction != t.fieldExecSendAction ==> Exchange(t) != t
  {
  }

  /** Each implementation sits behind exactly one selector. */
  predicate Permutation(t: MethodTable) {
    t.sendAction != t.fieldExecSendAction
  }

  /** The install guard and the current method table. */
  datatype Bridge = Bridge(didInstall: bool, table: MethodTable)

  const INITIAL_BRIDGE: Bridge := Bridge(false, INITIAL_TABLE)

  /**
    install: runs at most once. The exchange happens only when both
    methods are found; otherwise the table is left alone.
  */
  function Install(b: Bridge, methodsFound: bool): (r: Bridge)
    ensures r.didInstall
    ensures b.didInstall ==> r == b
    ensures !b.didInstall && methodsFound ==> r.table == Exchange(b.table)
    ensures !methodsFound ==> r.table == b.table
    ensures Permutation(b.table) ==> Permutation(r.table)
  {
    if b.didInstall then b
    else Bridge(true, if methodsFound then Exchange(b.table) else b.table)
  }

  /** Repeated installs, each with its own lookup result. */
  function InstallAll(b: Bridge, lookups: seq<bool>): Bridge
    decreases |lookups|
  {
    if lookups == [] then b else InstallAll(Install(b, lookups[0]), lookups[1..])
  }

  /** However many times install runs, only the first call counts. */
  lemma {:induction false} InstallAllIsFirstInstall(b: Bridge, lookups: seq<bool>)
    requires lookups != []
    ensures InstallAll(b, lookups) == Install(b, lookups[0])
    decreases |lookups|
  {
    var first := Install(b, lookups[0]);
    if |lookups| > 1 {
      InstallAllIsFirstInstall(first, lookups[1..]);
      assert Install(first, lookups[1]) == first;
    }
  }

  /**
    The application receiving sendAction: the selector runs whichever
    implementation the table puts behind it. The wrapper calls its own
    selector, which after the exchange runs AppKit's.
  */
  function SendAction(
    t: MethodTable, appKitHandled: bool, action: string,
    keyWindow: Option<Window>, mainWindow: Option<Window>, clipboard: Option<string>): (r: Dispatch)
    requires Permutation(t)
    ensures t.sendAction == AppKitSendAction ==> r == Dispatch(appKitHandled, None)
  {
    match t.sendAction
    case AppKitSendAction => Dispatch(appKitHandled, None)
    case FieldExecWrapper =>
      // the wrapper's inner call runs t.fieldExecSendAction, which is AppKit's
      FieldExecSendAction(appKitHandled, action, keyWindow, mainWindow, clipboard)
  }

  /**
    After the window installs the bridge, once or any number of times, an
    unhandled paste: reaches Flutter and every other action behaves as
    AppKit decides.
  */
  lemma InstalledBridgeForwardsPaste(
    lookups: seq<bool>, appKitHandled: bool, action: string,
    keyWindow: Option<Window>, mainWindow: Option<Window>, clipboard: Option<string>)
    requires lookups != [] && lookups[0]
    ensures
      var t := InstallAll(INITIAL_BRIDGE, lookups).table;
      && Permutation(t)
      && SendAction(t, appKitHandled, action, keyWindow, mainWindow, clipboard)
         == FieldExecSendAction(appKitHandled, action, keyWindow, mainWindow, clipboard)
  {
    InstallAllIsFirstInstall(INITIAL_BRIDGE, lookups);
  }

  /** Without the install guard a second install would switch the bridge off again. */
  lemma UnguardedReinstallUndoes(
    appKitHandled: bool, action: string,
    keyWindow: Option<Window>, mainWindow: Option<Window>, clipboard: Option<string>)
    ensures Exchange(Exchange(INITIAL_TABLE)) == INITIAL_TABLE
    ensures SendAction(Exchange(Exchange(INITIAL_TABLE)), appKitHandled, action, keyWindow, mainWindow, clipboard)
      == Dispatch(appKitHandled, None)
  {
    ExchangeInvolution(INITIAL_TABLE);
  }
}
