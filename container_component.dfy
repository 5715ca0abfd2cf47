/**
  The container component itself: an object that owns an insertion-ordered
  table of child components, a `composite` flag, an optional grouping
  container created on first use, and the class it instantiates for the
  single child of a String or primitive field.
 */
module ContainerComponent {
  import opened Wrappers
  import opened LinkedTable
  import opened FormModel
  import opened ContainerSpec

  /** A grouping container (an accordion by default): it gathers children by category. */
  class GroupingContainer {
    var style: GroupStyle
    var path: string
    var placements: seq<Placement>

    constructor (style: GroupStyle)
      ensures this.style == style && path == "" && placements == []
    {
      this.style := style;
      path := "";
      placements := [];
    }

    function View(): (v: GroupingView)
      reads this
    {
      GroupingView(style, path, placements)
    }

    method SetPath(p: string)
      modifies this`path
      ensures path == p
    {
      path := p;
    }

    /** Records that `component` was added under `category` and `name`. */
    method AddComponent(category: Option<string>, name: string, component: Component)
      modifies this`placements
      ensures placements == old(placements) + [Placement(category, name, component)]
    {
      placements := placements + [Placement(category, name, component)];
    }
  }

  class Container {
    const name: string               // the container's own name
    const field: Option<BoundField>  // the field it is bound to, if any
    var helper: Option<Helper>
    var path: string
    var fieldComponents: Table<Component>
    var composite: bool
    var groupingContainer: GroupingContainer?
    var defaultChildComponent: LeafType

    ghost predicate Valid()
      reads this
    {
      DistinctKeys(fieldComponents)
    }

    function State(): (c: Contents)
      reads this
    {
      Contents(fieldComponents, composite)
    }

    /** The grouping container as `generateItemsResource` will find it: the stored one, or a fresh accordion. */
    function GroupingState(): (g: GroupingView)
      reads this, groupingContainer
    {
      if groupingContainer == null then FreshAccordion else groupingContainer.View()
    }

    constructor (name: string, field: Option<BoundField>, helper: Option<Helper>, path: string)
      ensures Valid()
      ensures this.name == name && this.field == field && this.helper == helper && this.path == path
      ensures fieldComponents == [] && !composite && groupingContainer == null
      ensures defaultChildComponent == Textfield
    {
      this.name := name;
      this.field := field;
      this.helper := helper;
      this.path := path;
      fieldComponents := [];
      composite := false;
      groupingContainer := null;
      defaultChildComponent := Textfield;
    }

    /**
      Decides from the bound field's declared type which type is extracted,
      renames the children of a field that is neither an array nor a
      collection, then takes the path of the helper's resource.
     */
    method Init(formFields: FieldType -> Table<Component>) returns (outcome: Outcome<ExtractError>)
      requires Valid()
      modifies this`fieldComponents, this`composite, this`path
      ensures Valid()
      ensures match InitContents(old(State()), field, name, helper, defaultChildComponent, formFields)
        case Success(c) =>
          && outcome == Pass
          && fieldComponents == c.table && composite == c.composite
          && path == (if helper.Some? then helper.value.resourcePath else old(path))
        case Failure(e) =>
          && outcome == Fail(e)
          && fieldComponents == old(fieldComponents) && composite == old(composite) && path == old(path)
    {
      if field.Some? {
        var f := field.value;
        match f.declared {
          case ArrayOf(element) =>
            outcome := ExtractFieldComponents(element, formFields);
          case CollectionOf(_, argument) =>
            if argument.None? {
              return Fail(UnresolvedTypeArgument);
            }
            outcome := ExtractFieldComponents(argument.value, formFields);
          case _ =>
            outcome := ExtractFieldComponents(f.declared, formFields);
            if outcome.Pass? {
              RenameChildren(f.name);
            }
        }
        if outcome.Fail? {
          return;
        }
      }
      outcome := Pass;
      if helper.Some? {
        path := helper.value.resourcePath;
      }
    }

    /** Rewrites every child's name metadata to `<fieldName>/<old name>`, in place. */
    method RenameChildren(fieldName: string)
      requires Valid()
      modifies this`fieldComponents
      ensures Valid()
      ensures fieldComponents == Renamed(old(fieldComponents), fieldName)
    {
      var i := 0;
      while i < |fieldComponents|
        invariant 0 <= i <= |fieldComponents| == |old(fieldComponents)|
        invariant forall j :: 0 <= j < i ==>
          fieldComponents[j] == Entry(old(fieldComponents)[j].key, Prefixed(fieldName, old(fieldComponents)[j].value))
        invariant forall j :: i <= j < |fieldComponents| ==> fieldComponents[j] == old(fieldComponents)[j]
      {
        var comp := fieldComponents[i].value;
        var currentName := MetaName(comp.metadata);
        comp := comp.(metadata := comp.metadata[NameKey := fieldName + "/" + currentName]);
        fieldComponents := fieldComponents[i := Entry(fieldComponents[i].key, comp)];
        i := i + 1;
      }
    }

    /** `getGroupingContainer`: creates and stores an accordion on first use, then keeps returning it. */
    method GetGroupingContainer() returns (g: GroupingContainer)
      modifies this`groupingContainer
      ensures groupingContainer == g
      ensures old(groupingContainer) != null ==> g == old(groupingContainer)
      ensures old(groupingContainer) == null ==> fresh(g) && g.View() == FreshAccordion
    {
      if groupingContainer == null {
        groupingContainer := new GroupingContainer(Accordion);
      }
      g := groupingContainer;
    }

    method SetGroupingContainer(comp: GroupingContainer?)
      modifies this`groupingContainer
      ensures groupingContainer == comp
    {
      groupingContainer := comp;
    }

    /** `getFieldComponents`: the children, in insertion order. */
    method GetFieldComponents() returns (t: Table<Component>)
      ensures t == fieldComponents
    {
      t := fieldComponents;
    }

    method IsComposite() returns (b: bool)
      ensures b == composite
    {
      b := composite;
    }

    method SetDefaultChildComponent(leaf: LeafType)
      modifies this`defaultChildComponent
      ensures defaultChildComponent == leaf
    {
      defaultChildComponent := leaf;
    }

    /** `generateDefaultChildComponent`: a blank instance of the default class, or nothing when it cannot be made. */
    method GenerateDefaultChildComponent() returns (comp: Option<Component>)
      ensures comp.Some? <==> defaultChildComponent.instantiable
      ensures comp.Some? ==>
        comp.value.kind == defaultChildComponent.className && comp.value.metadata == map[] &&
        comp.value.category.None? && comp.value.helper.None?
      ensures comp == DefaultChild(defaultChildComponent)
    {
      if defaultChildComponent.instantiable {
        comp := Some(Component(defaultChildComponent.className, "", None, "", map[], None));
      } else {
        comp := None;
      }
    }

    /** `addComponent`: puts the child under `key`, keeping a present key's position. */
    method AddComponent(key: string, comp: Component)
      requires Valid()
      modifies this`fieldComponents
      ensures Valid()
      ensures fieldComponents == Put(old(fieldComponents), key, comp)
    {
      PutKeepsDistinct(fieldComponents, key, comp);
      fieldComponents := Put(fieldComponents, key, comp);
    }

    /** `extractFieldComponents(ty)`: fills the table from `ty` and sets `composite`. */
    method ExtractFieldComponents(ty: FieldType, formFields: FieldType -> Table<Component>)
      returns (outcome: Outcome<ExtractError>)
      requires Valid()
      modifies this`fieldComponents, this`composite
      ensures Valid()
      ensures match Extract(old(State()), ty, name, helper, defaultChildComponent, formFields)
        case Success(c) => outcome == Pass && fieldComponents == c.table && composite == c.composite
        case Failure(e) =>
          outcome == Fail(e) && fieldComponents == old(fieldComponents) && composite == old(composite)
    {
      if ty.Str? || ty.Primitive? {
        var comp := GenerateDefaultChildComponent();
        if comp.None? {
          return Fail(NoDefaultChild);
        }
        var child := Setup(comp.value, name, helper);
        child := child.(metadata := child.metadata[TitleKey := name]);
        AddComponent(name, child);
        composite := false;
      } else {
        var fields := formFields(ty);
        var i := 0;
        while i < |fields|
          invariant 0 <= i <= |fields|
          invariant Valid()
          invariant fieldComponents == PutAll(old(fieldComponents), fields[..i])
        {
          assert fields[..i + 1][..i] == fields[..i];
          AddComponent(fields[i].key, fields[i].value);
          i := i + 1;
        }
        assert fields[..i] == fields;
        composite := true;
      }
      outcome := Pass;
    }

    /**
      `generateItemsResource(p, useFieldSet)`: builds the items node at
      `p + "/items"`, grouping the children by category when they are
      categorised, wrapping them in a fieldset when asked, and otherwise
      listing them one by one at their own item paths.
     */
    method GenerateItemsResource(p: string, useFieldSet: bool) returns (items: Node)
      requires Valid()
      modifies this`fieldComponents, this`groupingContainer, groupingContainer
      ensures Valid()
      ensures var a := AssembleItems(old(fieldComponents), p, useFieldSet, helper, old(GroupingState()));
        && items == a.items && fieldComponents == a.table
        && (HasCategories(old(fieldComponents)) ==>
              && groupingContainer != null && groupingContainer.View() == a.grouping
              && (old(groupingContainer) != null ==> groupingContainer == old(groupingContainer))
              && (old(groupingContainer) == null ==> fresh(groupingContainer)))
        && (!HasCategories(old(fieldComponents)) ==>
              && groupingContainer == old(groupingContainer)
              && (groupingContainer != null ==> unchanged(groupingContainer)))
    {
      var children: seq<Node>;
      if HasCategories(fieldComponents) {
        var groups := GetGroupingContainer();
        PlaceInGroups(groups, p);
        children := [GroupingNode(groups.View())];
      } else if useFieldSet {
        var fieldset := CollectFieldset();
        children := [Node(p + "/fields", Fieldset(fieldset, helper), [])];
      } else {
        children := PlaceAtItemPaths(p);
      }
      items := Node(p + "/items", Items(ResolverOf(helper)), children);
    }

    /** The grouping branch: `groups` moves to `/tabs` and receives every child under its category. */
    method PlaceInGroups(groups: GroupingContainer, p: string)
      modifies groups`path, groups`placements
      ensures groups.path == p + "/tabs"
      ensures groups.placements == old(groups.placements) + Placements(fieldComponents)
    {
      groups.SetPath(p + "/tabs");
      var i := 0;
      while i < |fieldComponents|
        invariant 0 <= i <= |fieldComponents|
        invariant groups.path == p + "/tabs"
        invariant groups.placements == old(groups.placements) + Placements(fieldComponents[..i])
      {
        var e := fieldComponents[i];
        groups.AddComponent(e.value.category, e.key, e.value);
        assert Placements(fieldComponents[..i + 1]) ==
               Placements(fieldComponents[..i]) + [Placement(e.value.category, e.key, e.value)];
        i := i + 1;
      }
      assert fieldComponents[..i] == fieldComponents;
    }

    /** The fieldset branch: a new table that every child is added to, in order. */
    method CollectFieldset() returns (fieldset: Table<Component>)
      ensures fieldset == PutAll([], fieldComponents)
    {
      fieldset := [];
      var i := 0;
      while i < |fieldComponents|
        invariant 0 <= i <= |fieldComponents|
        invariant fieldset == PutAll([], fieldComponents[..i])
      {
        assert fieldComponents[..i + 1][..i] == fieldComponents[..i];
        fieldset := Put(fieldset, fieldComponents[i].key, fieldComponents[i].value);
        i := i + 1;
      }
      assert fieldComponents[..i] == fieldComponents;
    }

    /** The flat branch: each child gets the helper, if any, and its item path, and is listed as a leaf. */
    method PlaceAtItemPaths(p: string) returns (children: seq<Node>)
      requires Valid()
      modifies this`fieldComponents
      ensures Valid()
      ensures fieldComponents == FlatTable(old(fieldComponents), p, helper)
      ensures children == LeafNodes(fieldComponents)
    {
      children := [];
      var i := 0;
      while i < |fieldComponents|
        invariant 0 <= i <= |fieldComponents| == |old(fieldComponents)|
        invariant |children| == i
        invariant Valid()
        invariant forall j :: 0 <= j < i ==>
          fieldComponents[j] == Entry(old(fieldComponents)[j].key, AtItemPath(old(fieldComponents)[j].value, p, helper))
        invariant forall j :: i <= j < |fieldComponents| ==> fieldComponents[j] == old(fieldComponents)[j]
        invariant forall j :: 0 <= j < i ==> children[j] == LeafNode(fieldComponents[j].value)
      {
        var comp := fieldComponents[i].value;
        if helper.Some? {
          comp := comp.(helper := helper);
        }
        comp := comp.(path := p + "/items/" + comp.name);
        fieldComponents := fieldComponents[i := Entry(fieldComponents[i].key, comp)];
        children := children + [LeafNode(comp)];
        i := i + 1;
      }
    }
  }

  /** A client of `getGroupingContainer`: a second call returns the instance the first one stored. */
  method GroupingContainerIsReused(c: Container) returns (first: GroupingContainer, second: GroupingContainer)
    modifies c`groupingContainer
    ensures first == second && c.groupingContainer == first
    ensures old(c.groupingContainer) == null ==> fresh(first) && first.View() == FreshAccordion
  {
    first := c.GetGroupingContainer();
    second := c.GetGroupingContainer();
  }
}
