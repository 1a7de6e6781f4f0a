/**
 * `addRamlDefinitionWidget` of src/addRamlDefinitionWidget.tsx: given the
 * host's widget list, append a RAML widget that delegates to the first
 * OpenAPI widget, if there is one.
 */
module AddRamlWidget {
  import opened Results
  import opened WidgetUtils

  /** The argument as it arrives at run time: an array of widgets, or any
      other value (`undefined`, `null`, a plain object). */
  datatype WidgetsArgument = NotAnArray | AnArray(widgets: seq<Widget>)

  /** Index of the first element `p` accepts. */
  function FindIndex<T>(xs: seq<T>, p: T -> bool): (r: Option<nat>)
    ensures r.Some? ==> r.value < |xs| && p(xs[r.value])
    ensures r.Some? ==> forall j | 0 <= j < r.value :: !p(xs[j])
    ensures r.None? <==> forall j | 0 <= j < |xs| :: !p(xs[j])
  {
    if |xs| == 0 then None
    else if p(xs[0]) then Some(0)
    else match FindIndex(xs[1..], p)
      case None => None
      case Some(i) => Some(i + 1)
  }

  /** `Array.prototype.find`: the first element `p` accepts, or `undefined`. */
  function Find<T>(xs: seq<T>, p: T -> bool): (r: Option<T>)
    ensures r.None? <==> forall j | 0 <= j < |xs| :: !p(xs[j])
    ensures r.Some? ==> exists i | 0 <= i < |xs| :: xs[i] == r.value && p(xs[i]) && forall j | 0 <= j < i :: !p(xs[j])
  {
    match FindIndex(xs, p)
    case None => None
    case Some(i) => Some(xs[i])
  }

  /** Appending elements behind a match does not change the first match. */
  lemma {:induction false} FindIndexAppend<T>(xs: seq<T>, ys: seq<T>, p: T -> bool)
    requires FindIndex(xs, p).Some?
    ensures FindIndex(xs + ys, p) == FindIndex(xs, p)
  {
    if !p(xs[0]) {
      assert (xs + ys)[1..] == xs[1..] + ys;
      FindIndexAppend(xs[1..], ys, p);
    }
  }

  /** Whether some widget of the list has the OpenAPI type. */
  predicate HasOpenApiWidget(widgets: seq<Widget>) {
    exists i | 0 <= i < |widgets| :: widgets[i].kind == OpenApiWidgetType
  }

  /** `addRamlDefinitionWidget(widgets)`. */
  function AddRamlDefinitionWidget(arg: WidgetsArgument): (r: seq<Widget>)
    // not an array: the empty list
    ensures arg.NotAnArray? ==> r == []
    // no OpenAPI widget (the empty list included): the input, unchanged
    ensures arg.AnArray? && !HasOpenApiWidget(arg.widgets) ==> r == arg.widgets
    // an OpenAPI widget: the input in order, then one RAML widget delegating
    // to the component of the first OpenAPI widget
    ensures arg.AnArray? && HasOpenApiWidget(arg.widgets) ==>
              && |r| == |arg.widgets| + 1
              && r[..|arg.widgets|] == arg.widgets
              && r[|arg.widgets|].kind == RamlWidgetType
              && r[|arg.widgets|].title == RamlWidgetTitle
              && exists i | 0 <= i < |arg.widgets| ::
                   && arg.widgets[i].kind == OpenApiWidgetType
                   && (forall j | 0 <= j < i :: arg.widgets[j].kind != OpenApiWidgetType)
                   && forall definition :: Render(r[|arg.widgets|].component, definition)
                                             == RamlDefinitionElement(arg.widgets[i].component, definition)
  {
    match arg
    case NotAnArray => []
    case AnArray(widgets) =>
      match Find(widgets, ByType(OpenApiWidgetType))
      case None => widgets
      case Some(openapiWidget) =>
        widgets + [Widget(RamlWidgetType, RamlWidgetTitle, RamlComponent(openapiWidget.component))]
  }

  /** The descriptor built inline is the one `createRamlWidget` builds from
      the first OpenAPI widget. */
  lemma AppendedIsCreateRamlWidget(widgets: seq<Widget>, i: nat)
    requires i < |widgets| && widgets[i].kind == OpenApiWidgetType
    requires forall j | 0 <= j < i :: widgets[j].kind != OpenApiWidgetType
    ensures AddRamlDefinitionWidget(AnArray(widgets)) == widgets + [CreateRamlWidget(widgets[i])]
  {
  }

  /** The operation is not idempotent: a second application finds the same
      OpenAPI widget and appends a second, identical RAML widget. */
  lemma {:induction false} AddTwiceAppendsTwice(widgets: seq<Widget>)
    requires HasOpenApiWidget(widgets)
    ensures var once := AddRamlDefinitionWidget(AnArray(widgets));
            AddRamlDefinitionWidget(AnArray(once)) == once + [once[|widgets|]]
  {
    var p := ByType(OpenApiWidgetType);
    var once := AddRamlDefinitionWidget(AnArray(widgets));
    assert FindIndex(widgets, p).Some?;
    FindIndexAppend(widgets, [once[|widgets|]], p);
  }
}
