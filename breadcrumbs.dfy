/**
 * The breadcrumbs service: at most one breadcrumbs widget per editor group.
 * Registering on a group that already has a widget is an error; otherwise
 * the widget is stored and a handle is returned whose dispose removes the
 * group's entry, whatever widget it holds at that moment.
 */
module Breadcrumbs {
  import opened Text

  /** A breadcrumbs widget, compared by identity. */
  datatype Widget = Widget(handle: nat)

  /** The dispose handle register returns: its closure captures only the group. */
  datatype Registration = Registration(group: int)

  datatype RegisterResult = Registered(registration: Registration) | AlreadyTaken(message: string)

  /** The message of the error thrown on a taken group. */
  function TakenMessage(group: int): (m: string)
    ensures IsPrefix("group (", m)
  {
    "group (" + IntToString(group) + ") has already a widget"
  }

  // ---------------------------------------------------------------------
  // The registry, as values
  // ---------------------------------------------------------------------

  /** register on a map: the outcome and the map afterwards. */
  function RegisterOn(m: map<int, Widget>, group: int, widget: Widget): (r: (RegisterResult, map<int, Widget>))
    ensures group in m <==> r.0.AlreadyTaken?
    ensures group in m ==> r.1 == m && r.0.message == TakenMessage(group)
    ensures group !in m ==> r.0 == Registered(Registration(group)) && group in r.1 && r.1[group] == widget
    ensures forall g :: g != group ==> (g in r.1 <==> g in m) && (g in m ==> r.1[g] == m[g])
  {
    if group in m then (AlreadyTaken(TakenMessage(group)), m) else (Registered(Registration(group)), m[group := widget])
  }

  /** The dispose handle on a map: the group's entry goes, the others stay. */
  function DisposeOn(m: map<int, Widget>, h: Registration): (r: map<int, Widget>)
    ensures h.group !in r
    ensures forall g :: g != h.group ==> (g in r <==> g in m) && (g in m ==> r[g] == m[g])
  {
    m - {h.group}
  }

  /** After a successful register, getWidget returns the registered widget. */
  lemma RegisterThenLookup(m: map<int, Widget>, group: int, widget: Widget)
    requires RegisterOn(m, group, widget).0.Registered?
    ensures MapGet(RegisterOn(m, group, widget).1, group) == Some(widget)
  {
  }

  /** Disposing a fresh registration gives the map back as it was. */
  lemma RegisterDisposeInverse(m: map<int, Widget>, group: int, widget: Widget)
    requires group !in m
    ensures DisposeOn(RegisterOn(m, group, widget).1, Registration(group)) == m
  {
    assert RegisterOn(m, group, widget).1 == m[group := widget];
  }

  /** After dispose the group is free again: registering any widget there succeeds. */
  lemma ReRegisterAfterDispose(m: map<int, Widget>, h: Registration, widget: Widget)
    ensures RegisterOn(DisposeOn(m, h), h.group, widget).0 == Registered(h)
    ensures MapGet(RegisterOn(DisposeOn(m, h), h.group, widget).1, h.group) == Some(widget)
  {
  }

  /**
   * Disposing a stale handle still removes its group: a handle whose widget
   * was replaced after an earlier dispose takes the new widget with it.
   */
  lemma StaleDisposeRemovesNewWidget(m: map<int, Widget>, group: int, first: Widget, second: Widget)
    requires group !in m
    ensures var (r1, m1) := RegisterOn(m, group, first);
      var m2 := DisposeOn(m1, r1.registration);
      var (r2, m3) := RegisterOn(m2, group, second);
      r2.Registered? && MapGet(DisposeOn(m3, r1.registration), group) == None
  {
  }

  // ---------------------------------------------------------------------
  // The service
  // ---------------------------------------------------------------------

  class BreadcrumbsService {
    var widgets: map<int, Widget>

    constructor ()
      ensures widgets == map[]
    {
      widgets := map[];
    }

    method Register(group: int, widget: Widget) returns (r: RegisterResult)
      modifies this
      ensures (r, widgets) == RegisterOn(old(widgets), group, widget)
    {
      if group in widgets {
        return AlreadyTaken(TakenMessage(group));
      }
      widgets := widgets[group := widget];
      r := Registered(Registration(group));
    }

    /** The handle's dispose. */
    method Dispose(h: Registration)
      modifies this
      ensures widgets == DisposeOn(old(widgets), h)
    {
      widgets := widgets - {h.group};
    }

    function GetWidget(group: int): (r: Option<Widget>)
      reads this
      ensures r.Some? <==> group in widgets
      ensures r.Some? ==> r.value == widgets[group]
    {
      MapGet(widgets, group)
    }
  }
}
