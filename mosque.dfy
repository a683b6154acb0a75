/** Turning the elements of an Overpass answer into `Mosque` records (a filter-map). */
module Mosques {
  import opened Wrappers
  import opened Records

  datatype Center = Center(lat: F64, lon: F64)

  datatype Tags = Tags(name: Option<string>, street: Option<string>, city: Option<string>)

  /** One element of the answer; `element_type` is the JSON `type`. */
  datatype MosqueElement = MosqueElement(element_type: string, id: int, lat: Option<F64>, lon: Option<F64>,
                                         center: Option<Center>, tags: Option<Tags>)

  /** A geometry point, `x` the longitude and `y` the latitude. */
  datatype Point = Point(x: F64, y: F64)

  datatype Mosque = Mosque(id: RecordId, name: string, location: Point, street: Option<string>, city: Option<string>)

  const UnnamedMosque := "Unnamed Mosque"

  /** The element's position as `(lat, lon)`: a node's own, a way's center; nothing for anything else. */
  function Position(e: MosqueElement): (p: Option<(F64, F64)>)
    ensures e.element_type == "node" ==>
      p == (if e.lat.Some? && e.lon.Some? then Some((e.lat.value, e.lon.value)) else None)
    ensures e.element_type == "way" ==>
      p == (if e.center.Some? then Some((e.center.value.lat, e.center.value.lon)) else None)
    ensures e.element_type != "node" && e.element_type != "way" ==> p.None?
  {
    if e.element_type == "node" then
      if e.lat.Some? && e.lon.Some? then Some((e.lat.value, e.lon.value)) else None
    else if e.element_type == "way" then
      if e.center.Some? then Some((e.center.value.lat, e.center.value.lon)) else None
    else None
  }

  /** The closure given to `filter_map`: position first, then tags. */
  function ToMosque(e: MosqueElement): (m: Option<Mosque>)
    ensures m.Some? <==> Position(e).Some? && e.tags.Some?
    ensures m.Some? ==>
      && m.value.id == RecordId(MosquesTable, e.id)
      && m.value.name == e.tags.value.name.GetOr(UnnamedMosque)
      && m.value.street == e.tags.value.street && m.value.city == e.tags.value.city
      && m.value.location == Point(Position(e).value.1, Position(e).value.0)
  {
    match Position(e)
    case None => None
    case Some((lat, lon)) =>
      var location := Point(lon, lat);
      match e.tags
      case None => None
      case Some(tags) => Some(Mosque(RecordId(MosquesTable, e.id), tags.name.GetOr(UnnamedMosque), location,
                                     tags.street, tags.city))
  }

  /** `elements.into_iter().filter_map(..).collect()`. */
  function ToMosques(elements: seq<MosqueElement>): (ms: seq<Mosque>)
    ensures |ms| <= |elements|
  {
    if elements == [] then []
    else
      var rest := ToMosques(elements[1..]);
      match ToMosque(elements[0])
      case None => rest
      case Some(m) => [m] + rest
  }

  /** Every mosque comes from an element of the input, and every kept element yields its mosque. */
  lemma {:induction false} ToMosquesMembers(elements: seq<MosqueElement>)
    ensures forall m :: m in ToMosques(elements) ==> exists e :: e in elements && ToMosque(e) == Some(m)
    ensures forall e :: e in elements && ToMosque(e).Some? ==> ToMosque(e).value in ToMosques(elements)
  {
    if elements != [] {
      ToMosquesMembers(elements[1..]);
      assert forall e :: e in elements[1..] ==> e in elements;
      assert forall e :: e in elements ==> e == elements[0] || e in elements[1..];
    }
  }

  /** Converting a concatenation converts each part in turn: the output keeps the input's order. */
  lemma {:induction false} ToMosquesAppend(a: seq<MosqueElement>, b: seq<MosqueElement>)
    ensures ToMosques(a + b) == ToMosques(a) + ToMosques(b)
  {
    if a != [] {
      ToMosquesAppend(a[1..], b);
      assert (a + b)[1..] == a[1..] + b;
      assert (a + b)[0] == a[0];
      var tail := ToMosques(a[1..] + b);
      assert tail == ToMosques(a[1..]) + ToMosques(b);
      match ToMosque(a[0])
      case None =>
        assert ToMosques(a + b) == tail;
        assert ToMosques(a) == ToMosques(a[1..]);
      case Some(m) =>
        assert ToMosques(a + b) == [m] + tail;
        assert ToMosques(a) == [m] + ToMosques(a[1..]);
    } else {
      assert a + b == b;
    }
  }

  /** The number of elements the closure keeps. */
  function KeptCount(elements: seq<MosqueElement>): nat {
    if elements == [] then 0 else (if ToMosque(elements[0]).Some? then 1 else 0) + KeptCount(elements[1..])
  }

  /** Exactly the kept elements produce a mosque each. */
  lemma {:induction false} ToMosquesLength(elements: seq<MosqueElement>)
    ensures |ToMosques(elements)| == KeptCount(elements)
  {
    if elements != [] {
      ToMosquesLength(elements[1..]);
    }
  }

  /** An element of any other type, or without tags, is dropped whatever its coordinates. */
  lemma DroppedElements(e: MosqueElement)
    ensures e.element_type != "node" && e.element_type != "way" ==> ToMosques([e]) == []
    ensures e.tags.None? ==> ToMosques([e]) == []
  {
  }

  /** Distinct element ids give distinct record ids. */
  lemma DistinctIds(e1: MosqueElement, e2: MosqueElement)
    requires ToMosque(e1).Some? && ToMosque(e2).Some?
    requires e1.id != e2.id
    ensures ToMosque(e1).value.id != ToMosque(e2).value.id
  {
  }
}
