/** The object graph the wrappers read and write: values, and a heap of
    objects addressed by references.  Beans keep their state per property
    name (the getter and setter of a property, or its field, read and write
    the same slot), maps are string-keyed, lists and arrays positional. */
module Heaps {
  import opened Results
  import opened Text
  import opened Tables
  import opened Classes

  type Addr = nat

  /** A Java value: null, an immutable scalar (a String or a boxed primitive,
      with its text), or a reference to an object on the heap. */
  datatype Value = Null | Scalar(cls: ClassId, text: string) | Ref(addr: Addr)

  /** A heap object.  `SetObject` stands for any Collection that is not a List. */
  datatype Node =
    | Bean(cls: ClassId, props: map<string, Value>)
    | MapObject(cls: ClassId, entries: Table<Value>)
    | ListObject(cls: ClassId, items: seq<Value>)
    | SetObject(cls: ClassId, items: seq<Value>)
    | ArrayObject(component: ClassId, items: seq<Value>)

  /** The objects, and the next unused address. */
  datatype Heap = Heap(nodes: map<Addr, Node>, next: Addr)
  {
    /** Every object lives below `next`, so allocation never reuses an address. */
    ghost predicate Valid() {
      forall a :: a in nodes ==> a < next
    }
  }

  /** The class of SystemMetaObject's NullObject, which declares nothing. */
  const NULL_OBJECT: ClassId := "org.apache.ibatis.reflection.SystemMetaObject$NullObject"

  /** The object at an address; an address the heap does not hold reads as a
      plain Object without state. */
  function NodeAt(h: Heap, a: Addr): Node {
    if a in h.nodes then h.nodes[a] else Bean(OBJECT, map[])
  }

  function ArrayClass(component: ClassId): ClassId {
    component + "[]"
  }

  function NodeClass(n: Node): ClassId {
    match n
    case Bean(c, _) => c
    case MapObject(c, _) => c
    case ListObject(c, _) => c
    case SetObject(c, _) => c
    case ArrayObject(component, _) => ArrayClass(component)
  }

  /** object.getClass() of a non-null value. */
  function ClassOf(h: Heap, v: Value): ClassId {
    match v
    case Null => OBJECT
    case Scalar(c, _) => c
    case Ref(a) => NodeClass(NodeAt(h, a))
  }

  /** Places a new object at the next free address. */
  function Alloc(h: Heap, n: Node): (r: (Heap, Addr))
    ensures r.1 == h.next && r.0.nodes == h.nodes[h.next := n] && r.0.next == h.next + 1
    ensures h.Valid() ==> r.0.Valid() && r.1 !in h.nodes
  {
    (Heap(h.nodes[h.next := n], h.next + 1), h.next)
  }

  /** Replaces the object at an address. */
  function Update(h: Heap, a: Addr, n: Node): (r: Heap)
    ensures r.nodes == h.nodes[a := n] && r.next == h.next
    ensures h.Valid() && a in h.nodes ==> r.Valid()
  {
    Heap(h.nodes[a := n], h.next)
  }

  /** Which kind of object a node is. */
  function Tag(n: Node): nat {
    match n
    case Bean(_, _) => 0
    case MapObject(_, _) => 1
    case ListObject(_, _) => 2
    case SetObject(_, _) => 3
    case ArrayObject(_, _) => 4
  }

  /** Java objects never change class: a write keeps every existing object's
      kind and class, and allocation only adds objects. */
  ghost predicate Extends(h: Heap, h': Heap) {
    && h.next <= h'.next
    && forall a: Addr :: a < h.next ==> Tag(NodeAt(h', a)) == Tag(NodeAt(h, a)) && NodeClass(NodeAt(h', a)) == NodeClass(NodeAt(h, a))
  }

  /** Allocation keeps every existing object. */
  lemma AllocExtends(h: Heap, n: Node)
    ensures Extends(h, Alloc(h, n).0)
  {
  }

  lemma ExtendsTransitive(h1: Heap, h2: Heap, h3: Heap)
    requires Extends(h1, h2) && Extends(h2, h3)
    ensures Extends(h1, h3)
  {
  }

  predicate IsPrimitive(c: ClassId) {
    c in {"boolean", "byte", "char", "short", "int", "long", "float", "double"}
  }

  /** The wrapper class of a primitive type. */
  function Boxed(c: ClassId): ClassId {
    match c
    case "boolean" => "java.lang.Boolean"
    case "byte" => "java.lang.Byte"
    case "char" => "java.lang.Character"
    case "short" => "java.lang.Short"
    case "int" => "java.lang.Integer"
    case "long" => "java.lang.Long"
    case "float" => "java.lang.Float"
    case "double" => "java.lang.Double"
    case _ => c
  }

  /** Whether the value is passed unchanged for a parameter, field or array
      slot of the given type: null for reference types, otherwise an instance
      of the type or, for a primitive, of that primitive's own wrapper.  The
      widening conversions a reflective call also applies (an Integer for a
      long parameter) are not included. */
  predicate Accepts(u: Universe, h: Heap, t: ClassId, v: Value) {
    if v.Null? then !IsPrimitive(t)
    else IsAssignableFrom(u, t, ClassOf(h, v)) || (IsPrimitive(t) && ClassOf(h, v) == Boxed(t))
  }

  /** String.valueOf(v); an object prints as its class and address, standing
      in for Object.toString. */
  function ValueText(h: Heap, v: Value): string {
    match v
    case Null => "null"
    case Scalar(_, t) => t
    case Ref(a) => ClassOf(h, v) + "@" + NatToString(a)
  }
}
