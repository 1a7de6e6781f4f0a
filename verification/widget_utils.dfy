/**
 * Widget descriptors and the two helpers of src/utils/widget-utils.tsx:
 * the `byType` filter and `createRamlWidget`.
 */
module WidgetUtils {

  /** The widget-type and title constants. Their values are defined outside
      this model, so nothing is assumed about them, not even that they differ. */
  const OpenApiWidgetType: string
  const RamlWidgetType: string
  const RamlWidgetTitle: string

  /** A widget's `component`, a function from a definition string to a
      rendered element, kept as an opaque value. */
  datatype Component =
    | Host(id: nat)
      // a rendering function supplied by the host application
    | RamlDefinition(openapi: Component)
      // renders a RamlDefinitionWidget with the OpenAPI component and the definition

  /** What invoking a component with a definition produces. */
  datatype Element =
    | HostElement(id: nat, definition: string)
    | RamlDefinitionElement(component: Component, definition: string)

  /** An `ApiDefinitionWidget`: the type it handles, a title and a component. */
  datatype Widget = Widget(kind: string, title: string, component: Component)

  /** Calls `component(definition)`. */
  function Render(c: Component, definition: string): Element {
    match c
    case Host(id) => HostElement(id, definition)
    case RamlDefinition(openapi) => RamlDefinitionElement(openapi, definition)
  }

  /** `byType(type)`: the filter that accepts exactly the widgets of that type. */
  function ByType(kind: string): (accepts: Widget -> bool)
    ensures forall w: Widget :: accepts(w) <==> w.kind == kind
  {
    (w: Widget) => w.kind == kind
  }

  /** The component of a RAML widget: renders `RamlDefinitionWidget` with the
      given OpenAPI component and the definition it was called with. */
  function RamlComponent(openapi: Component): (c: Component)
    ensures forall definition :: Render(c, definition) == RamlDefinitionElement(openapi, definition)
  {
    RamlDefinition(openapi)
  }

  /** `createRamlWidget(openapiWidget)`: a RAML-typed, RAML-titled widget
      whose component delegates to the OpenAPI widget's component. */
  function CreateRamlWidget(openapiWidget: Widget): (w: Widget)
    ensures w.kind == RamlWidgetType
    ensures w.title == RamlWidgetTitle
    ensures forall definition ::
              Render(w.component, definition) == RamlDefinitionElement(openapiWidget.component, definition)
  {
    Widget(RamlWidgetType, RamlWidgetTitle, RamlComponent(openapiWidget.component))
  }

  /** The created widget depends only on the argument's component, not on
      its type or title. */
  lemma CreateRamlWidgetUsesOnlyComponent(a: Widget, b: Widget)
    ensures CreateRamlWidget(a) == CreateRamlWidget(b) <==> a.component == b.component
  {
    if CreateRamlWidget(a) == CreateRamlWidget(b) {
      assert CreateRamlWidget(a).component.openapi == a.component;
    }
  }
}
