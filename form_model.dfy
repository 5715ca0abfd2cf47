/**
  The values a form container works with: its child field components, the
  rendering helper, the declared type of the bound field, and the abstract
  resource tree the container assembles.
 */
module FormModel {
  import opened Wrappers
  import opened LinkedTable

  /** The rendering context: the path of the current request's resource and its resolver. */
  datatype Helper = Helper(resourcePath: string, resolver: nat)

  /**
    A child field component. `kind` is its component class, `name` what
    `getName()` returns, `category` what `getCategory()` returns (`None` for
    null), `metadata` its resource metadata, `helper` what `setHelper` last set.
   */
  datatype Component = Component(
    kind: string,
    name: string,
    category: Option<string>,
    path: string,
    metadata: map<string, string>,
    helper: Option<Helper>)

  /** The declared type of a bound field, as far as the container inspects it. */
  datatype FieldType =
    | Str                                                    // java.lang.String
    | Primitive(primitive: string)                           // int, boolean, ...
    | ArrayOf(element: FieldType)
    | CollectionOf(collection: string, argument: Option<FieldType>)  // None: raw, or not a plain class
    | Composite(className: string)

  /** The field a container is bound to: its name and declared type. */
  datatype BoundField = BoundField(name: string, declared: FieldType)

  /** The class a container instantiates for the single child of a String or primitive field. */
  datatype LeafType = LeafType(className: string, instantiable: bool)

  const Textfield := LeafType("TextfieldComponent", true)

  /** The style of a grouping container. */
  datatype GroupStyle = Accordion | OtherGrouping(className: string)

  /** One `addComponent(category, name, component)` call received by a grouping container. */
  datatype Placement = Placement(category: Option<string>, key: string, component: Component)

  /** The abstract resource tree. */
  datatype Node = Node(path: string, kind: NodeKind, children: seq<Node>)

  datatype NodeKind =
    | Items(resolver: Option<nat>)
    | Leaf(component: Component)
    | Grouped(style: GroupStyle, placements: seq<Placement>)
    | Fieldset(entries: Table<Component>, helper: Option<Helper>)

  const NameKey := "name"
  const TitleKey := "title"

  /** `String.valueOf(meta.get("name"))`: a missing entry reads as "null". */
  function MetaName(meta: map<string, string>): (name: string)
  {
    if NameKey in meta then meta[NameKey] else "null"
  }

  function StripPrefix(prefix: string, s: string): (rest: Option<string>)
  {
    if |prefix| <= |s| && s[..|prefix|] == prefix then Some(s[|prefix|..]) else None
  }
}
