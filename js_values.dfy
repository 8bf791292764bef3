/** JavaScript values and the lodash object primitives the client is built from.
    An options object is a map from property name to a scalar value; a name that is
    not in the map reads as `undefined`, and a name may also be present with the
    value `undefined` (as `_.defaults` and `_.pick` can produce). */
module JsValues {

  datatype Option<+T> = None | Some(value: T)

  datatype Result<+R, +E> = Success(value: R) | Failure(error: E)

  /** The scalar values an options object of this client carries. Numbers are
      modelled as integers; the API's numeric parameters are all integral. */
  datatype Value = Undefined | Null | Bool(b: bool) | Num(n: int) | Str(s: string)

  type Props = map<string, Value>

  /** Property read `object[key]`: a missing property reads as `undefined`. */
  function Get(m: Props, key: string): Value
  {
    if key in m then m[key] else Undefined
  }

  /** lodash `_.isNil`. */
  predicate IsNil(v: Value)
  {
    v.Undefined? || v.Null?
  }

  /** JavaScript truthiness (`!!v`). */
  predicate Truthy(v: Value)
    ensures Truthy(v) ==> !IsNil(v)
    ensures v.Str? ==> (Truthy(v) <==> v.s != "")
  {
    match v
    case Undefined => false
    case Null => false
    case Bool(b) => b
    case Num(n) => n != 0
    case Str(s) => s != ""
  }

  /** lodash `_.defaults(target, source)`: every property of `source` whose slot in
      `target` reads as `undefined` is copied into `target`; every other slot of
      `target` is kept. */
  function Defaults(target: Props, source: Props): (r: Props)
    ensures r.Keys == target.Keys + source.Keys
    ensures forall k :: Get(target, k) != Undefined ==> Get(r, k) == Get(target, k)
    ensures forall k :: Get(target, k) == Undefined ==> Get(r, k) == Get(source, k)
  {
    map k | k in target.Keys + source.Keys ::
      if k in target && target[k] != Undefined then target[k] else Get(source, k)
  }

  /** `_.defaults({}, options)` copies `options` as it is. */
  lemma DefaultsOfEmpty(options: Props)
    ensures Defaults(map[], options) == options
  {
  }

  /** lodash `_.pick(m, keys)`: the properties of `m` named in `keys`,
      whatever their value. */
  function Pick(m: Props, keys: set<string>): (r: Props)
    ensures r.Keys == m.Keys * keys
    ensures forall k :: k in r ==> r[k] == m[k]
  {
    map k | k in m.Keys * keys :: m[k]
  }

  /** lodash `_.mapValues(m, f)`. */
  function MapValues(m: Props, f: Value -> Value): (r: Props)
    ensures r.Keys == m.Keys
    ensures forall k :: k in r ==> r[k] == f(m[k])
  {
    map k | k in m :: f(m[k])
  }

  /** lodash `_.omitBy(m, _.isNil)`. */
  function OmitNil(m: Props): (r: Props)
    ensures forall k :: k in r <==> k in m && !IsNil(m[k])
    ensures forall k :: k in r ==> r[k] == m[k]
  {
    map k | k in m && !IsNil(m[k]) :: m[k]
  }

  /** A mutable JavaScript object, for the options dictionary that is changed in place. */
  class JsObject {
    var props: Props

    constructor (props: Props)
      ensures this.props == props
    {
      this.props := props;
    }
  }
}
