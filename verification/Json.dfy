/** JavaScript values as the validators receive them, and the string tests they use. */
module Json {

  datatype Option<+T> = None | Some(value: T)

  /** A JavaScript number: NaN and the infinities are values of `typeof` "number" too. */
  datatype Num = NaN | NegInf | PosInf | Fin(value: real) {
    predicate Below(bound: int) {
      NegInf? || (Fin? && value < bound as real)
    }
    predicate Above(bound: int) {
      PosInf? || (Fin? && value > bound as real)
    }
    predicate IsInteger() {
      Fin? && value.Floor as real == value
    }
  }

  datatype Json =
    | Null
    | Bool(b: bool)
    | Number(n: Num)
    | Str(s: string)
    | Arr(items: seq<Json>)
    | Obj(fields: map<string, Json>)
  {
    /** Property read: None stands for `undefined`. */
    function Get(key: string): Option<Json> {
      if Obj? && key in fields then Some(fields[key]) else None
    }

    /** The string stored under `key`, when there is one. */
    function GetString(key: string): Option<string> {
      match Get(key)
      case Some(Str(s)) => Some(s)
      case _ => None
    }
  }

  predicate IsWhite(c: char) {
    c in "\t\n\r \U{000B}\U{000C}\U{00A0}\U{1680}\U{2028}\U{2029}\U{202F}\U{205F}\U{3000}\U{FEFF}"
    || '\U{2000}' <= c <= '\U{200A}'
  }

  /** `!s.trim()` */
  predicate IsBlank(s: string) {
    forall c | c in s :: IsWhite(c)
  }
}
