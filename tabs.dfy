/**
 * The lazy-loading tab host of `initTabs`: buttons whose active attribute marks the current
 * tab, and a registry of the views loaded so far, each mounted once into the shared target.
 *
 * The DOM is reduced to the active attribute of each button and a trace of what the host
 * does to the target and to the views' hooks. A loader's result is an input to `Activate`;
 * overlapping activations are outside the model.
 */
module Tabs {
  import opened Wrappers

  /** A hook a view module exports: missing, or a function that returns or throws. */
  datatype Hook = Absent | Returns | Throws

  datatype ViewModule = ViewModule(mount: Hook, show: Hook, hide: Hook)

  /** What `await loader()` gives: the module, or a rejection. */
  datatype LoadResult = Loaded(view: ViewModule) | LoadFailed

  /** A hook of the registered API: the module's own, or the host's fallback (which never throws). */
  datatype ApiHook = Fallback | Provided(throws: bool)

  datatype Api = Api(mount: ApiHook, show: ApiHook, hide: ApiHook)

  datatype Entry = Entry(api: Api, mounted: bool)

  /** What the host does to the mount target and to the views. */
  datatype Effect =
    | ClearTarget                                  // mountTarget.replaceChildren()
    | MountView(tab: string, placeholder: bool)    // api.mount(mountTarget); the fallback writes "[tab] view"
    | ShowView(tab: string)                        // api.show()
    | HideView(tab: string)                        // api.hide?.()

  /** The registered hook for what a module exports under one name. */
  function ApiHookOf(h: Hook): ApiHook {
    match h
    case Absent => Fallback
    case Returns => Provided(false)
    case Throws => Provided(true)
  }

  /** The API surface of a loaded module: each missing hook is replaced by a fallback. */
  function WithFallbacks(m: ViewModule): (api: Api)
    ensures api.mount == Fallback <==> m.mount == Absent
    ensures api.show == Fallback <==> m.show == Absent
    ensures api.hide == Fallback <==> m.hide == Absent
    ensures api.mount.Provided? ==> api.mount.throws == (m.mount == Throws)
    ensures api.show.Provided? ==> api.show.throws == (m.show == Throws)
    ensures api.hide.Provided? ==> api.hide.throws == (m.hide == Throws)
  {
    Api(ApiHookOf(m.mount), ApiHookOf(m.show), ApiHookOf(m.hide))
  }

  /** Whether `api.mount(mountTarget)` throws. */
  predicate MountThrows(api: Api) {
    api.mount == Provided(true)
  }

  /** `defaultTab || buttons[0]?.dataset.tab`, kept only when truthy. */
  function InitialTab(defaultTab: Option<string>, buttonTabs: seq<string>): (r: Option<string>)
    ensures r.Some? ==> r.value != ""
    ensures Truthy(defaultTab) ==> r == defaultTab
    ensures !Truthy(defaultTab) ==> r == (if buttonTabs != [] && buttonTabs[0] != "" then Some(buttonTabs[0]) else None)
  {
    var initial := if Truthy(defaultTab) then defaultTab
                   else if buttonTabs != [] then Some(buttonTabs[0]) else None;
    if Truthy(initial) then initial else None
  }

  /** The hide calls of `hideAll` over the registered tabs, in registration order. */
  function Hides(tabs: seq<string>): (r: seq<Effect>)
    ensures |r| == |tabs| && forall i :: 0 <= i < |tabs| ==> r[i] == HideView(tabs[i])
  {
    if tabs == [] then [] else [HideView(tabs[0])] + Hides(tabs[1..])
  }

  class TabHost {
    /** The `data-tab` of each button found in the bar, in document order. */
    const buttons: seq<string>
    /** The tabs that have a loader in `views`. */
    const loaders: set<string>
    /** Whether button `i` carries the active attribute. */
    var active: seq<bool>
    var registry: map<string, Entry>
    /** The registry's keys in insertion order: the order of `Object.values(registry)`. */
    var loadOrder: seq<string>
    var effects: seq<Effect>

    ghost predicate Valid()
      reads this
    {
      && |active| == |buttons|
      && (forall a, b :: 0 <= a < b < |loadOrder| ==> loadOrder[a] != loadOrder[b])
      && (forall t :: t in registry <==> t in loadOrder)
      && registry.Keys <= loaders
      && (forall t :: t in registry ==> registry[t].mounted)
    }

    /** The host right after the guard of `initTabs` passed; `marked` is the attribute state the markup had. */
    constructor (buttons: seq<string>, loaders: set<string>, marked: seq<bool>)
      requires |marked| == |buttons|
      ensures Valid()
      ensures this.buttons == buttons && this.loaders == loaders && active == marked
      ensures registry == map[] && loadOrder == [] && effects == []
    {
      this.buttons := buttons;
      this.loaders := loaders;
      active := marked;
      registry := map[];
      loadOrder := [];
      effects := [];
    }

    /** `setActiveButton(tab)`: exactly the buttons for `tab` carry the active attribute. */
    method SetActiveButton(tab: string)
      requires Valid()
      modifies this`active
      ensures Valid()
      ensures forall i :: 0 <= i < |buttons| ==> (active[i] <==> buttons[i] == tab)
    {
      var i := 0;
      while i < |buttons|
        invariant 0 <= i <= |buttons| && |active| == |buttons|
        invariant forall j :: 0 <= j < i ==> (active[j] <==> buttons[j] == tab)
      {
        active := active[i := buttons[i] == tab];
        i := i + 1;
      }
    }

    /** `hideAll()`: call `hide` on every registered view; a throwing hide is swallowed. */
    method HideAll()
      requires Valid()
      modifies this`effects
      ensures Valid()
      ensures effects == old(effects) + Hides(loadOrder)
    {
      var i := 0;
      while i < |loadOrder|
        invariant 0 <= i <= |loadOrder|
        invariant effects == old(effects) + Hides(loadOrder[..i])
      {
        assert loadOrder[..i + 1] == loadOrder[..i] + [loadOrder[i]];
        HidesAppend(loadOrder[..i], loadOrder[i]);
        effects := effects + [HideView(loadOrder[i])];
        i := i + 1;
      }
      assert loadOrder[..i] == loadOrder;
    }

    /**
     * `activate(tab)`, with `load` the result `await loader()` gives if the loader is called.
     * Without a loader nothing happens. Otherwise the buttons switch to `tab`; a tab seen for the
     * first time is loaded, mounted once into the cleared target, registered, and shown after
     * every registered view is hidden; a registered tab is only switched to.
     */
    method Activate(tab: string, load: LoadResult)
      requires Valid()
      modifies this
      ensures Valid()
      ensures tab !in loaders ==> unchanged(this)
      ensures tab in loaders ==> forall i :: 0 <= i < |buttons| ==> (active[i] <==> buttons[i] == tab)
      // registry entries are only ever added
      ensures old(registry).Keys <= registry.Keys
      ensures forall t :: t in old(registry) ==> registry[t] == old(registry)[t]
      ensures registry.Keys <= old(registry).Keys + {tab}
      ensures tab in loaders && tab in old(registry) ==>
        && registry == old(registry) && loadOrder == old(loadOrder)
        && effects == old(effects) + Hides(loadOrder) + [ShowView(tab)]
      ensures tab in loaders && tab !in old(registry) && load.LoadFailed? ==>
        registry == old(registry) && loadOrder == old(loadOrder) && effects == old(effects)
      ensures tab in loaders && tab !in old(registry) && load.Loaded? ==>
        var api := WithFallbacks(load.view);
        var mounting := old(effects) + [ClearTarget, MountView(tab, api.mount == Fallback)];
        if MountThrows(api) then
          registry == old(registry) && loadOrder == old(loadOrder) && effects == mounting
        else
          && registry == old(registry)[tab := Entry(api, true)]
          && loadOrder == old(loadOrder) + [tab]
          && effects == mounting + Hides(loadOrder) + [ShowView(tab)]
    {
      if tab !in loaders {
        return;
      }
      SetActiveButton(tab);
      if tab !in registry {
        if load.Loaded? {
          var api := WithFallbacks(load.view);
          effects := effects + [ClearTarget, MountView(tab, api.mount == Fallback)];
          if !MountThrows(api) {
            registry := registry[tab := Entry(api, true)];
            loadOrder := loadOrder + [tab];
            HideAll();
            effects := effects + [ShowView(tab)];
          }
        }
        // a rejected loader or a throwing mount is logged; the registry is left as it was
        return;
      }
      HideAll();
      effects := effects + [ShowView(tab)];
    }
  }

  lemma HidesAppend(tabs: seq<string>, t: string)
    ensures Hides(tabs + [t]) == Hides(tabs) + [HideView(t)]
  {
  }

  /**
   * `initTabs`: nothing without the bar, a button or the target. Otherwise a host is built and,
   * when there is an initial tab, its buttons are marked at once; `activate(initial)` is left to
   * the caller, as the source defers it to a microtask.
   */
  method InitTabs(barPresent: bool, buttons: seq<string>, marked: seq<bool>, targetPresent: bool,
                  defaultTab: Option<string>, loaders: set<string>)
    returns (host: TabHost?, initial: Option<string>)
    requires |marked| == |buttons|
    ensures host == null <==> !(barPresent && buttons != [] && targetPresent)
    ensures host == null ==> initial.None?
    ensures host != null ==>
      && fresh(host) && host.Valid()
      && host.buttons == buttons && host.loaders == loaders
      && host.registry == map[] && host.effects == []
      && initial == InitialTab(defaultTab, buttons)
      && (initial.None? ==> host.active == marked)
      && (initial.Some? ==> forall i :: 0 <= i < |buttons| ==> (host.active[i] <==> buttons[i] == initial.value))
  {
    if !barPresent || buttons == [] || !targetPresent {
      return null, None;
    }
    host := new TabHost(buttons, loaders, marked);
    initial := InitialTab(defaultTab, buttons);
    if initial.Some? {
      host.SetActiveButton(initial.value);
    }
  }
}
