/** The schema-less data model the provider exchanges with its callers, and the
    .NET facts about types it consults (a type's namespace, name and TypeCode). */
module Data {
  import opened Wrappers

  /** System.TypeCode, the tag Type.GetTypeCode returns. */
  datatype TypeCode =
    | Empty | Object | DBNull | Boolean | Char | SByte | Byte
    | Int16 | UInt16 | Int32 | UInt32 | Int64 | UInt64
    | Single | Double | Decimal | DateTime | String

  /** A System.Type as far as the provider looks at it. */
  datatype ClrType = ClrType(namespace: string, name: string, code: TypeCode)

  /** A boxed scalar. `Null` is the C# null reference and `DbNull` is DBNull.Value;
      `Opaque` is any other value (a floating-point number, a date, a Guid, ...),
      carried by the culture-dependent text its ToString() produces. */
  datatype Value = Null | DbNull | Integer(i: int) | Text(s: string) | Opaque(display: string)

  /** A named, typed value of an entity. */
  datatype Property = Property(name: string, propertyType: ClrType, value: Value)

  /** An entity: its properties, in order. */
  datatype Entity = Entity(properties: seq<Property>)

  /** A named placeholder with the value bound to it. */
  datatype Parameter = Parameter(name: string, value: Value)

  /** The exceptions the provider can raise. */
  datatype Fault =
    | NotImplemented                       // NotImplementedException
    | ArgumentOutOfRange(message: string)  // ArgumentOutOfRangeException
    | NullReference                        // NullReferenceException
    | KeyNotFound(key: string)             // an entity indexed by a name it lacks

  /** Entity.PropertyNames: the names of the properties, in order. */
  function PropertyNames(e: Entity): (names: seq<string>)
    ensures |names| == |e.properties|
    ensures forall i :: 0 <= i < |names| ==> names[i] == e.properties[i].name
  {
    seq(|e.properties|, i requires 0 <= i < |e.properties| => e.properties[i].name)
  }

  /** The entity indexer `entity[name]`: the value of the first property called `name`,
      and KeyNotFound when there is none. */
  function Item(e: Entity, name: string): (r: Result<Value, Fault>)
    ensures r.Ok? <==> name in PropertyNames(e)
    ensures r.Err? ==> r.error == KeyNotFound(name)
    ensures r.Ok? ==> exists i :: 0 <= i < |e.properties| && e.properties[i].name == name &&
                                e.properties[i].value == r.value &&
                                forall j :: 0 <= j < i ==> e.properties[j].name != name
  {
    Find(e.properties, name)
  }

  function Find(ps: seq<Property>, name: string): (r: Result<Value, Fault>)
    decreases |ps|
    ensures r.Ok? <==> exists i :: 0 <= i < |ps| && ps[i].name == name
    ensures r.Err? ==> r.error == KeyNotFound(name)
    ensures r.Ok? ==> exists i :: 0 <= i < |ps| && ps[i].name == name &&
                                ps[i].value == r.value &&
                                forall j :: 0 <= j < i ==> ps[j].name != name
  {
    if ps == [] then Err(KeyNotFound(name))
    else if ps[0].name == name then Ok(ps[0].value)
    else
      var r := Find(ps[1..], name);
      assert forall i :: 1 <= i < |ps| ==> ps[i] == ps[1..][i - 1];
      assert r.Ok? ==> exists i :: 1 <= i < |ps| && ps[i].name == name && ps[i].value == r.value &&
                                 forall j :: 0 <= j < i ==> ps[j].name != name by {
        if r.Ok? {
          var k :| 0 <= k < |ps[1..]| && ps[1..][k].name == name && ps[1..][k].value == r.value &&
                   forall j :: 0 <= j < k ==> ps[1..][j].name != name;
          assert forall j :: 1 <= j < k + 1 ==> ps[j] == ps[1..][j - 1];
        }
      }
      r
  }
}
