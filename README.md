# Form container composition, modelled in Dafny

This project models `AbstractContainerComponent`, the container of the
annotation-driven form framework: a form field whose value is itself a
String, a primitive, an array, a collection or a composite object, and which
turns that value into child field components and lays them out as a resource
tree.

The model covers:

- **Cardinality** (`init`, `extractFieldComponents`). The bound field's
  declared type is a `FieldType`. An array extracts its element type and a
  collection its first type argument. Any other type extracts itself, and
  afterwards every child's `"name"` metadata is rewritten to
  `<field name>/<old name>`. A String or primitive type gives one default child
  under the container's own name, titled with it, and `composite` false. Any
  other type takes the extractor's ordered `(name, component)` pairs and sets
  `composite` true.
- **The child table**: a `LinkedHashMap` is modelled as a sequence of entries
  (`LinkedTable`). `Put` keeps a present key in its place and appends a new
  one.
- **Layout** (`generateItemsResource`). With more than one distinct non-empty
  category the children go to the grouping container at `<path>/tabs`.
  Otherwise, with `useFieldSet`, they go into one fieldset at `<path>/fields`.
  Otherwise each child is listed at `<path>/items/<name>`.
- **`hasCategories`**, proved equivalent to "two children carry different
  non-null, non-empty categories".
- **The lazily created grouping container**, an accordion by default.

Structure: `Wrappers` (Option, Result, Outcome), `LinkedTable` (the
insertion-ordered map), `FormModel` (components, helper, field types,
resource nodes), `ContainerSpec` (the container's behaviour as functions of
its state, with the lemmas about it), and `ContainerComponent` (the classes
`Container` and `GroupingContainer`). The class methods update their fields
in place and are proved against the `ContainerSpec` functions.

The model follows the code as written, including where that may be
unexpected:

- When the default child class cannot be instantiated,
  `generateDefaultChildComponent` logs and returns null. Line 92 then
  dereferences that null, so the operation raises instead of skipping the
  child. The model returns `Fail(NoDefaultChild)` and leaves the state as it
  was.
- The renaming in `init` applies to every field that is neither an array nor
  a collection. That includes a plain String field (`InitStringField`), and
  it rewrites every entry already in the table.
- A collection field whose type argument is not a plain class (a raw or
  nested generic type) fails the cast on lines 48-49. The model returns
  `Fail(UnresolvedTypeArgument)`.
- Every child is placed in the grouping container, including children whose
  category is null or empty (line 115). Only the decision to group needs two
  different named categories; the placements are not limited to categorised
  children (`GroupedWhenCategorised`).
- A missing `"name"` metadata entry is read through `String.valueOf`, so it
  becomes the text `"null"` (`MetaName`).

## Model

| member | source | states |
|---|---|---|
| `LinkedTable.PutGet` | bundle/src/main/java/com/adobe/acs/commons/mcp/form/AbstractContainerComponent.java:105-107 | after `put(name, f)` the table sends `name` to `f`, and every other key to what it had before |
| `LinkedTable.PutReplacesInPlace` | bundle/src/main/java/com/adobe/acs/commons/mcp/form/AbstractContainerComponent.java:105-107 | re-adding a present name replaces its value at its original insertion position; nothing else moves |
| `LinkedTable.PutAppendsNew` | bundle/src/main/java/com/adobe/acs/commons/mcp/form/AbstractContainerComponent.java:105-107 | a new name is appended at the end, and the earlier entries keep their order |
| `LinkedTable.PutKeepsDistinct` | bundle/src/main/java/com/adobe/acs/commons/mcp/form/AbstractContainerComponent.java:37 | the child table never holds a name twice |
| `LinkedTable.PutAllAppends` | bundle/src/main/java/com/adobe/acs/commons/mcp/form/AbstractContainerComponent.java:99 | adding entries whose names are new and distinct appends all of them, in the given order |
| `LinkedTable.PutAllGet` | bundle/src/main/java/com/adobe/acs/commons/mcp/form/AbstractContainerComponent.java:99 | putting every pair of a map into a table sends each of the map's names to the map's value, and every other name to what it had before |
| `ContainerSpec.DistinctCountAboveOne` | bundle/src/main/java/com/adobe/acs/commons/mcp/form/AbstractContainerComponent.java:150-151 | `distinct().count() > 1` holds exactly when the stream has two different elements |
| `ContainerSpec.HasCategories` | bundle/src/main/java/com/adobe/acs/commons/mcp/form/AbstractContainerComponent.java:146-152 | the children's categories, mapped, filtered to the non-null non-empty ones, made distinct in stream order and counted, come to more than one; this holds iff two children carry different non-null, non-empty categories (both directions) |
| `ContainerSpec.NamedCountIff` | bundle/src/main/java/com/adobe/acs/commons/mcp/form/AbstractContainerComponent.java:146-152 | the count of distinct named categories exceeds one exactly when two children carry different named categories |
| `ContainerSpec.DistinctElements` | bundle/src/main/java/com/adobe/acs/commons/mcp/form/AbstractContainerComponent.java:150 | `distinct()` keeps exactly the elements of the stream |
| `ContainerSpec.DistinctNoRepeats` | bundle/src/main/java/com/adobe/acs/commons/mcp/form/AbstractContainerComponent.java:150 | `distinct()` never yields an element twice |
| `ContainerSpec.CategoryExamples` | bundle/src/main/java/com/adobe/acs/commons/mcp/form/AbstractContainerComponent.java:146-152 | categories A, A, B count as categorised; A, A does not; empty, null and A together do not |
| `ContainerSpec.ExtractSimpleType` | bundle/src/main/java/com/adobe/acs/commons/mcp/form/AbstractContainerComponent.java:89-97 | a String or primitive type fails exactly when the default child cannot be made. Otherwise `composite` is false and the container's own name maps to a child of the default class. That child is named and titled with the container's name. Other keys are unchanged, and an empty table ends with exactly that one child |
| `ContainerSpec.ExtractCompositeType` | bundle/src/main/java/com/adobe/acs/commons/mcp/form/AbstractContainerComponent.java:98-101 | any other type always succeeds and sets `composite` true, whatever the table held. Each extracted name goes to the extractor's component (a present name is replaced in place) and every other name keeps its child. When all names are new, the extractor's pairs are appended in the order returned |
| `ContainerSpec.InitDispatch` | bundle/src/main/java/com/adobe/acs/commons/mcp/form/AbstractContainerComponent.java:44-50 | with no bound field nothing changes. An array field extracts its element type and a collection field its type argument, and neither renames anything. A collection with no plain-class type argument fails |
| `ContainerSpec.RenamedChildren` | bundle/src/main/java/com/adobe/acs/commons/mcp/form/AbstractContainerComponent.java:53-57 | the rename keeps keys and order. Each child's `"name"` metadata becomes `fieldName + "/" + MetaName(old)`, where `MetaName` is `String.valueOf(meta.get("name"))`, giving `"null"` for a missing entry; nothing else in the child changes |
| `ContainerSpec.RenameRoundTrip` | bundle/src/main/java/com/adobe/acs/commons/mcp/form/AbstractContainerComponent.java:55-56 | stripping `fieldName + "/"` from the rewritten name gives back the old name |
| `ContainerSpec.InitRenamesOtherTypes` | bundle/src/main/java/com/adobe/acs/commons/mcp/form/AbstractContainerComponent.java:51-57 | for any field that is neither an array nor a collection, `init` succeeds iff extraction does. On success it keeps the extracted keys and `composite`, and each old name is recoverable from the new one |
| `ContainerSpec.InitStringField` | bundle/src/main/java/com/adobe/acs/commons/mcp/form/AbstractContainerComponent.java:51-57 | starting from an empty container, a String field gives one child under the container's name, titled with it, whose name metadata becomes `fieldName + "/" + containerName`; `composite` is false |
| `ContainerSpec.GroupedWhenCategorised` | bundle/src/main/java/com/adobe/acs/commons/mcp/form/AbstractContainerComponent.java:111-116 | when categorised, the result does not depend on `useFieldSet`. The grouping container's path becomes `path + "/tabs"` and it receives every child, in order, under its category and key. The items node at `path + "/items"` has exactly that one child |
| `ContainerSpec.FieldsetWhenRequested` | bundle/src/main/java/com/adobe/acs/commons/mcp/form/AbstractContainerComponent.java:117-122 | not categorised, with `useFieldSet`: the items node has exactly one fieldset child at `path + "/fields"`, holding every entry in order, with the container's helper |
| `ContainerSpec.FlatOtherwise` | bundle/src/main/java/com/adobe/acs/commons/mcp/form/AbstractContainerComponent.java:123-131 | not categorised, no fieldset: the items node has one leaf per child, in insertion order. Each child's path becomes `path + "/items/" + getName()`. It is given the helper when one exists, and nothing else about it changes |
| `ContainerComponent.Container.constructor` | bundle/src/main/java/com/adobe/acs/commons/mcp/form/AbstractContainerComponent.java:37-40 | a new container has an empty child table, is not composite, has no grouping container, and uses the text field as its default child class |
| `ContainerComponent.Container.Init` | bundle/src/main/java/com/adobe/acs/commons/mcp/form/AbstractContainerComponent.java:43-63 | the new table and `composite` are those of `InitContents`. The path becomes the helper's resource path when a helper exists. On an error nothing changes |
| `ContainerComponent.Container.RenameChildren` | bundle/src/main/java/com/adobe/acs/commons/mcp/form/AbstractContainerComponent.java:53-57 | the loop leaves exactly the `Renamed` table |
| `ContainerComponent.Container.GetGroupingContainer` | bundle/src/main/java/com/adobe/acs/commons/mcp/form/AbstractContainerComponent.java:65-70 | with no grouping container, it stores a fresh, empty accordion and returns it; otherwise it returns the stored instance unchanged |
| `ContainerComponent.GroupingContainerIsReused` | bundle/src/main/java/com/adobe/acs/commons/mcp/form/AbstractContainerComponent.java:65-70 | two calls return the same instance, and that instance is the one stored |
| `ContainerComponent.Container.SetGroupingContainer` | bundle/src/main/java/com/adobe/acs/commons/mcp/form/AbstractContainerComponent.java:72-74 | overwrites the grouping container with the given one |
| `ContainerComponent.Container.GetFieldComponents` | bundle/src/main/java/com/adobe/acs/commons/mcp/form/AbstractContainerComponent.java:76-78 | returns the child table |
| `ContainerComponent.Container.GenerateDefaultChildComponent` | bundle/src/main/java/com/adobe/acs/commons/mcp/form/AbstractContainerComponent.java:80-87 | gives a blank instance of the default class exactly when that class can be instantiated, and nothing otherwise |
| `ContainerComponent.Container.ExtractFieldComponents` | bundle/src/main/java/com/adobe/acs/commons/mcp/form/AbstractContainerComponent.java:89-101 | the new table and `composite` are those of `Extract`; on an error nothing changes |
| `ContainerComponent.Container.AddComponent` | bundle/src/main/java/com/adobe/acs/commons/mcp/form/AbstractContainerComponent.java:105-108 | the table becomes `Put(old table, name, component)` and keeps its names distinct |
| `ContainerComponent.Container.GenerateItemsResource` | bundle/src/main/java/com/adobe/acs/commons/mcp/form/AbstractContainerComponent.java:110-137 | the items node and the new table are those of `AssembleItems`. In the grouping branch the grouping container is the stored instance, or a fresh accordion, holding the assembled placements. In the other branches it is untouched |
| `ContainerComponent.Container.PlaceInGroups` | bundle/src/main/java/com/adobe/acs/commons/mcp/form/AbstractContainerComponent.java:114-115 | the grouping container's path becomes `p + "/tabs"`, and it receives one placement per child, in order, after what it held |
| `ContainerComponent.Container.CollectFieldset` | bundle/src/main/java/com/adobe/acs/commons/mcp/form/AbstractContainerComponent.java:118-119 | the fieldset receives every `(name, component)` entry in table order |
| `ContainerComponent.Container.PlaceAtItemPaths` | bundle/src/main/java/com/adobe/acs/commons/mcp/form/AbstractContainerComponent.java:124-131 | each child gets the helper (when there is one) and its item path, and the leaves come out in table order |
| `ContainerComponent.Container.IsComposite` | bundle/src/main/java/com/adobe/acs/commons/mcp/form/AbstractContainerComponent.java:142-144 | returns the `composite` flag |
| `ContainerComponent.Container.SetDefaultChildComponent` | bundle/src/main/java/com/adobe/acs/commons/mcp/form/AbstractContainerComponent.java:157-159 | sets the class used for the next default child |
| `ContainerComponent.GroupingContainer.constructor` | bundle/src/main/java/com/adobe/acs/commons/mcp/form/AbstractContainerComponent.java:67 | a new grouping container has the given style, and holds nothing yet |
| `ContainerComponent.GroupingContainer.SetPath` | bundle/src/main/java/com/adobe/acs/commons/mcp/form/AbstractContainerComponent.java:114 | sets the grouping container's path |
| `ContainerComponent.GroupingContainer.AddComponent` | bundle/src/main/java/com/adobe/acs/commons/mcp/form/AbstractContainerComponent.java:115 | records one `(category, name, component)` placement after the earlier ones |

## Left out

- Java reflection (`isArray`, `getComponentType`, `ParameterizedType`, `isPrimitive`, `newInstance`) is replaced by the `FieldType` datatype and by `LeafType`, a class name with a flag saying whether it can be instantiated.
- `AnnotatedFieldDeserializer.getFormFields` is not part of this model. It is a parameter `formFields` from a type to an ordered table. The helper it also receives is fixed for the duration of a call, so it is not passed.
- `FormField.Factory.create` and the leaf's own `setup` are not part of this model. `Setup` only records that the default child takes the container's name, as its name and as its `"name"` metadata, and the container's helper.
- Client-library aggregation (`addClientLibraries`, lines 102 and 107) is left out: its body is not part of this model. Each child is passed to it twice, once from `addComponent` and once on line 102.
- Resource construction is abstract: `AbstractResourceImpl`, `ResourceMetadata` and every `buildComponentResource` body become `Node` values. The resource resolver set on line 134 is a number carried by the helper.
- The grouping container's `addComponent` and its rendering are not part of this model; it keeps a log of the placements it received. Bucketing by category happens in that unseen code.
- Idempotence of `generateItemsResource` is not claimed. The grouping container is reused across calls and accumulates placements. Whether its unseen code removes duplicates is not modelled.
- Logging of the failed instantiation (lines 83-85) is left out. The failure itself is modelled as an error.
- Children are values, not shared objects. The in-place changes to a child (metadata rename, `setPath`, `setHelper`) are rewrites of its entry in the container's table. Aliasing is not captured: neither one component object held under two names, nor one held elsewhere as well. `GetFieldComponents` returns the table's value, not a live view.
- The container's own name, bound field, helper and initial path come from the unseen base class. They are constructor parameters here, and the request object is reduced to the helper's resource path and resolver.
