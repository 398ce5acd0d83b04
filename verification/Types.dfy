/** The types of src/types.rs. */
module Types {
  datatype Ty =
    | Unit
    | I32
    | I64
    | F32
    | F64
    | Bool
    | Bytes
    | Args
    | HttpServerConfig
    | HttpListener
    | HttpRequest
    | HttpResponse
    | SqliteConnection
    | SqliteRow
    | SqliteValue
    | Stream(item: Ty)
    | Fault
    | Faultable(item: Ty)
    | Seq(item: Ty)
    | Tuple(items: seq<Ty>)
    | Struct(name: string, fields: seq<TyField>)
    | OneOf(items: seq<Ty>)
    | Var(name: string)
    | EmptySeq

  datatype TyField = TyField(name: string, ty: Ty)

  predicate ContainsFaultable(t: Ty)
  {
    match t
    case Faultable(_) => true
    case Seq(item) => ContainsFaultable(item)
    case Stream(item) => ContainsFaultable(item)
    case Tuple(items) => exists i :: 0 <= i < |items| && ContainsFaultable(items[i])
    case Struct(_, fields) => exists i :: 0 <= i < |fields| && ContainsFaultable(fields[i].ty)
    case OneOf(items) => exists i :: 0 <= i < |items| && ContainsFaultable(items[i])
    case _ => false
  }

  /** A literal without items of a known type needs a type from its context. */
  predicate HasEmptySeq(t: Ty)
  {
    match t
    case EmptySeq => true
    case Faultable(item) => HasEmptySeq(item)
    case Seq(item) => HasEmptySeq(item)
    case Stream(item) => HasEmptySeq(item)
    case Tuple(items) => exists i :: 0 <= i < |items| && HasEmptySeq(items[i])
    case OneOf(items) => exists i :: 0 <= i < |items| && HasEmptySeq(items[i])
    case Struct(_, fields) => exists i :: 0 <= i < |fields| && HasEmptySeq(fields[i].ty)
    case _ => false
  }
}
