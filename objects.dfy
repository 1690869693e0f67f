/**
  * The host framework's type-erased value (`Pothos::Object`), reduced to a closed
  * variant with the two conversions the radio group asks about.
  */
module PothosObjects {

  /** A framework value: the null object, a primitive, text, or a vector of values. */
  datatype Object =
    | Empty                       // the null object, `Pothos::Object()`
    | Bool(b: bool)
    | Int(i: int)
    | Str(s: string)
    | Vec(items: seq<Object>)     // `Pothos::ObjectVector`

  /** `canConvert(typeid(Pothos::ObjectVector))` */
  predicate CanConvertToVector(o: Object) {
    o.Vec?
  }

  /** `canConvert(typeid(QString))` */
  predicate CanConvertToString(o: Object) {
    o.Str?
  }
}
