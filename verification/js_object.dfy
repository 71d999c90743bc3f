/** Property lookup on a JavaScript object literal, `obj[key]`, as section
    10.1.8.1 ([[Get]]) of ECMA-262 defines it: an own property first, then the
    prototype chain, which for a literal is `Object.prototype`. */
module JsObject {
  /** Property names every object literal inherits from `Object.prototype`
      (section 20.1.3 of ECMA-262, counting the legacy `__proto__` accessor
      and the `__defineGetter__` family that browsers also provide). */
  const InheritedKeys: set<string> := {
    "constructor", "hasOwnProperty", "isPrototypeOf", "propertyIsEnumerable",
    "toLocaleString", "toString", "valueOf", "__proto__",
    "__defineGetter__", "__defineSetter__", "__lookupGetter__", "__lookupSetter__"
  }

  /** What `obj[key]` yields: an own value, an inherited member (a function or,
      for `__proto__`, the prototype object itself), or `undefined`. */
  datatype Property<V> = Own(value: V) | Inherited(name: string) | Undefined {
    /** Objects and functions are truthy; only `undefined` is falsy here. */
    predicate Truthy() { !Undefined? }
  }

  /** `obj[key]` for the object literal whose own properties are `own`. */
  function Get<V>(own: map<string, V>, key: string): (r: Property<V>)
    ensures r.Own? <==> key in own
    ensures r.Own? ==> r.value == own[key]
    ensures r.Inherited? <==> key !in own && key in InheritedKeys
    ensures r.Inherited? ==> r.name == key
  {
    if key in own then Own(own[key])
    else if key in InheritedKeys then Inherited(key)
    else Undefined
  }

  /** `obj[key] || fallback`, and equally `const v = obj[key]; if (!v) return fallback;`,
      for maps whose own values are all truthy objects. */
  function LookupOr<V>(own: map<string, V>, key: string, fallback: V): (r: Property<V>)
    ensures r.Truthy()
    ensures r.Inherited? <==> key !in own && key in InheritedKeys
    ensures !r.Inherited? ==> r == Own(if key in own then own[key] else fallback)
  {
    var p := Get(own, key);
    if p.Truthy() then p else Own(fallback)
  }

  /** The lookup restricted to own properties, as `Object.hasOwn(obj, key)`
      would guard it. */
  function OwnOr<V>(own: map<string, V>, key: string, fallback: V): (r: V)
    ensures key in own ==> r == own[key]
    ensures key !in own ==> r == fallback
  {
    if key in own then own[key] else fallback
  }

  /** The two lookups agree on every key that no object inherits. */
  lemma LookupOrAgrees<V>(own: map<string, V>, key: string, fallback: V)
    requires key !in InheritedKeys || key in own
    ensures LookupOr(own, key, fallback) == Own(OwnOr(own, key, fallback))
  {
  }
}
