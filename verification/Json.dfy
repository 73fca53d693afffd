/** JSON values as the SDK's components see them: an object is a finite map. */
module Json {
  import opened Wrappers

  /** A number is kept as the text it is printed as, which is what the wire carries. */
  datatype Json =
    | Null
    | Bool(flag: bool)
    | Number(token: string)
    | String(text: string)
    | Array(items: seq<Json>)
    | Object(fields: map<string, Json>)

  type Fields = map<string, Json>

  /** The object filed under `key`, or an empty one. */
  function ObjectAt(fields: Fields, key: string): Fields
  {
    if key in fields && fields[key].Object? then fields[key].fields else map[]
  }

  /** Whether a printed number denotes zero: no digit but `0` before an exponent. */
  predicate IsZero(token: string)
  {
    token == [] || token[0] in "eE" || (token[0] !in "123456789" && IsZero(token[1..]))
  }

  /** The mantissa ends at `n`, and has no digit but `0`. */
  ghost predicate ZeroUpTo(token: string, n: nat)
  {
    && n <= |token| && (n == |token| || token[n] in "eE")
    && forall i :: 0 <= i < n ==> token[i] !in "123456789"
  }

  /** A number is zero exactly when no digit but `0` stands before its exponent, if it has one. */
  lemma {:induction false} ZeroExactlyWhen(token: string)
    ensures IsZero(token) <==> exists n: nat :: ZeroUpTo(token, n)
  {
    if token == [] || token[0] in "eE" {
      assert ZeroUpTo(token, 0);
    } else {
      var rest := token[1..];
      ZeroExactlyWhen(rest);
      if n: nat :| ZeroUpTo(rest, n) && token[0] !in "123456789" {
        assert forall i :: 0 < i < n + 1 ==> token[i] == rest[i - 1];
        assert ZeroUpTo(token, n + 1);
      }
      if n: nat :| ZeroUpTo(token, n) {
        assert forall i :: 0 <= i < n - 1 ==> rest[i] == token[i + 1];
        assert ZeroUpTo(rest, n - 1);
      }
    }
  }
}
