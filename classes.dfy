/** The Java class universe the reflection code inspects, described by data:
    each class's superclass, declared members and the few facts the modelled
    code asks about it.  Generic types are taken as already resolved. */
module Classes {
  import opened Results
  import opened Text

  /** A class is named by its binary name, e.g. "java.util.List". */
  type ClassId = string

  const OBJECT: ClassId := "java.lang.Object"
  const BOOLEAN: ClassId := "boolean"
  const ITERABLE: ClassId := "java.lang.Iterable"
  const COLLECTION: ClassId := "java.util.Collection"
  const LIST: ClassId := "java.util.List"
  const MAP: ClassId := "java.util.Map"
  const SET: ClassId := "java.util.Set"
  const SORTED_SET: ClassId := "java.util.SortedSet"
  const ARRAY_LIST: ClassId := "java.util.ArrayList"
  const HASH_MAP: ClassId := "java.util.HashMap"
  const HASH_SET: ClassId := "java.util.HashSet"
  const TREE_SET: ClassId := "java.util.TreeSet"

  /** A method: its resolved return type and, when that type is parameterized,
      its resolved type arguments (None for an argument that is neither a class
      nor a parameterized type, such as a wildcard). */
  datatype Method = Method(
    name: string,
    paramTypes: seq<ClassId>,
    returnType: ClassId,
    returnTypeArgs: seq<Option<ClassId>>,
    declaringClass: ClassId,
    isBridge: bool)

  /** A declared field, with its resolved type and type arguments. */
  datatype Field = Field(
    name: string,
    fieldType: ClassId,
    typeArgs: seq<Option<ClassId>>,
    isFinal: bool,
    isStatic: bool)

  /** What kind of object the class's constructors build: a bean, a Map, a
      List, or another Collection. */
  datatype Shape = BeanShape | MapShape | ListShape | SetShape

  /** One class.  `constructors` lists the parameter types of each declared
      constructor.  `depth` is its distance from the root of the hierarchy: a
      superclass is only followed when its depth is smaller, so every walk up
      the hierarchy ends.  `interfaceMethods` are the methods its directly
      implemented interfaces report, in order.  `isAbstract` marks an abstract
      class or an interface: its constructors are still declared, but
      Constructor.newInstance refuses to run them. */
  datatype ClassInfo = ClassInfo(
    depth: nat,
    superclass: Option<ClassId>,
    declaredMethods: seq<Method>,
    interfaceMethods: seq<Method>,
    declaredFields: seq<Field>,
    constructors: seq<seq<ClassId>>,
    isRecord: bool,
    isAbstract: bool,
    shape: Shape)

  /** The classes, and the pairs (A, B) with A.isAssignableFrom(B) for A != B. */
  datatype Universe = Universe(classes: map<ClassId, ClassInfo>, subtypes: set<(ClassId, ClassId)>)

  /** A class the universe does not describe has no members and no superclass. */
  function Info(u: Universe, c: ClassId): (info: ClassInfo)
    ensures c !in u.classes ==> info.superclass.None? && info.declaredMethods == [] && info.declaredFields == []
  {
    if c in u.classes then u.classes[c] else ClassInfo(0, None, [], [], [], [], false, false, BeanShape)
  }

  function Depth(u: Universe, c: ClassId): nat {
    Info(u, c).depth
  }

  /** Class.getSuperclass, None for Java's null. */
  function Superclass(u: Universe, c: ClassId): (s: Option<ClassId>)
    ensures s.Some? ==> Depth(u, s.value) < Depth(u, c)
  {
    var sup := Info(u, c).superclass;
    if sup.Some? && Depth(u, sup.value) < Depth(u, c) then sup else None
  }

  /** Class.isAssignableFrom: reflexive, and otherwise as the universe says. */
  predicate IsAssignableFrom(u: Universe, a: ClassId, b: ClassId) {
    a == b || (a, b) in u.subtypes
  }

  /** The universe's assignability is transitive, as Java's is. */
  ghost predicate Transitive(u: Universe) {
    forall a, b, c :: (a, b) in u.subtypes && (b, c) in u.subtypes && a != c ==> (a, c) in u.subtypes
  }

  lemma AssignableTransitive(u: Universe, a: ClassId, b: ClassId, c: ClassId)
    requires Transitive(u) && IsAssignableFrom(u, a, b) && IsAssignableFrom(u, b, c)
    ensures IsAssignableFrom(u, a, c)
  {
  }

  /** Class.getSimpleName for a top-level class: the text after the last '.'. */
  function SimpleName(c: ClassId): (r: string)
    ensures '.' !in r
    ensures |r| <= |c|
  {
    if c == [] then []
    else if c[|c| - 1] == '.' then []
    else SimpleName(c[..|c| - 1]) + [c[|c| - 1]]
  }
}
