/** The shared data of the pipeline: the storage type of a schema field and the
    raw records the remote API returns. */
module DataTypes {
  import opened Results

  /** The storage type of one named field (`PgType`, imported elsewhere as
      `ValueType`). */
  datatype PgType = Varchar | Int | Float | Point

  /** The enum member's value: `VARCHAR = 0` up to `POINT = 3`. */
  function Ordinal(t: PgType): int
  {
    match t
    case Varchar => 0
    case Int => 1
    case Float => 2
    case Point => 3
  }

  /** `PgType(v)`: the member with value `v`; any other value raises. */
  function FromOrdinal(v: int): Option<PgType>
  {
    if v == 0 then Some(Varchar)
    else if v == 1 then Some(Int)
    else if v == 2 then Some(Float)
    else if v == 3 then Some(Point)
    else None
  }

  /** The four members have the distinct values 0 to 3, and looking a value
      up finds exactly the member that has it. */
  lemma OrdinalRoundTrip(t: PgType, v: int)
    ensures 0 <= Ordinal(t) < 4
    ensures FromOrdinal(Ordinal(t)) == Some(t)
    ensures FromOrdinal(v).Some? <==> 0 <= v < 4
    ensures FromOrdinal(v) == Some(t) <==> Ordinal(t) == v
  {
  }

  /** A schema: field name to storage type. */
  type Properties = map<string, PgType>

  /** A flat JSON scalar as it appears in a record. Numbers are kept as their
      literal text: the core never does arithmetic on them. */
  datatype Json = JNull | JBool(b: bool) | JNumber(literal: string) | JString(s: string)

  /** One raw event record as decoded from the API's JSON. */
  type Record = map<string, Json>

  /** The `data` array of one page. */
  type Batch = seq<Record>

  /** The fields a schema stores as point geometry. */
  function PointFields(props: Properties): set<string>
  {
    set f | f in props && props[f] == Point
  }
}
