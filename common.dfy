/** Values shared by every part of the model: nullable values, JavaScript
    truthiness of strings, opaque timestamps and store-generated keys. */
module Common {

  /** A value that may be absent: `null` or `undefined` in the source. */
  datatype Option<T> = None | Some(value: T)

  /** A point in time as the store keeps it (`created_at`, `updated_at`).
      Only its order matters to the model; `new Date()` is an input. */
  type Timestamp = int

  /** JavaScript truthiness of a nullable string: `null`, `undefined` and
      the empty string are falsy, every other string is truthy. */
  predicate Truthy(s: Option<string>)
  {
    s.Some? && s.value != ""
  }

  /** The expression `s || null`: a falsy string becomes `null`. */
  function OrNull(s: Option<string>): Option<string>
  {
    if Truthy(s) then s else None
  }

  /** The length of the longest key. */
  function MaxLength(keys: seq<string>): (m: nat)
    ensures forall k | k in keys :: |k| <= m
    ensures keys != [] ==> exists k | k in keys :: |k| == m
  {
    if keys == [] then 0
    else
      var rest := MaxLength(keys[1..]);
      assert forall k | k in keys[1..] :: k in keys;
      if |keys[0]| > rest then |keys[0]| else rest
  }

  /** The key the store generates for a new row: longer than every key in
      use, hence different from all of them and never empty. */
  function NewKey(existing: seq<string>): (k: string)
    ensures k !in existing
    ensures k != ""
  {
    seq(MaxLength(existing) + 1, _ => 'k')
  }
}
