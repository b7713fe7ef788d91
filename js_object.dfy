/**
 * Plain JavaScript objects (`{}`) used as dictionaries. Such an object is
 * not empty: every key below already reads a value inherited from
 * `Object.prototype` in Node.js (a function, or the prototype itself for
 * `__proto__`), so `if (!dict[key])` finds it present, and that value has
 * no `push` and no `images` list.
 */
module JsObject {
  /** The names `Object.prototype` answers in Node.js. */
  const InheritedKeys: set<string> := {
    "constructor", "__proto__", "toString", "toLocaleString", "valueOf",
    "hasOwnProperty", "isPrototypeOf", "propertyIsEnumerable",
    "__defineGetter__", "__defineSetter__", "__lookupGetter__", "__lookupSetter__"
  }

  /** Whether an empty object literal already answers `key`. */
  predicate Inherited(key: string) {
    key in InheritedKeys
  }
}
