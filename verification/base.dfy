/** Shared vocabulary of the model: optional values, HTTP status codes,
    fixed-point currency and the ASCII subset of Python's `str.lower`. */
module Base {

  /** A value that may be absent (Python `None`, a nullable column, a
      missing request field). */
  datatype Option<+T> = None | Some(value: T)

  /** Calendar dates are integer day numbers, so `(end - start).days` is
      plain subtraction. */
  type Day = int

  /** Decimal amounts with two places are integer cents, so products stay
      exact. */
  type Cents = int

  // HTTP status codes the views return.
  const HTTP_200_OK: int := 200
  const HTTP_201_CREATED: int := 201
  const HTTP_204_NO_CONTENT: int := 204
  const HTTP_400_BAD_REQUEST: int := 400
  const HTTP_401_UNAUTHORIZED: int := 401
  const HTTP_403_FORBIDDEN: int := 403
  const HTTP_404_NOT_FOUND: int := 404
  /** An uncaught exception inside a view (TypeError, AttributeError,
      IntegrityError) reaches the client as a server error. */
  const HTTP_500_SERVER_ERROR: int := 500

  /** 10^n, for digit bounds of decimal columns. */
  function Pow10(n: nat): (r: nat)
    ensures r >= 1
  {
    if n == 0 then 1 else 10 * Pow10(n - 1)
  }

  /** A `DecimalField(max_digits=d, decimal_places=2)` holds an amount in
      cents exactly when the cents have at most `d` digits. */
  predicate FitsDecimal(amount: Cents, maxDigits: nat)
  {
    -(Pow10(maxDigits) as int) < amount < Pow10(maxDigits)
  }

  predicate IsUpper(c: char)
  {
    'A' <= c <= 'Z'
  }

  function LowerChar(c: char): (r: char)
    ensures !IsUpper(r)
    ensures IsUpper(c) ==> r as int == c as int + 32
    ensures !IsUpper(c) ==> r == c
  {
    if IsUpper(c) then (c as int + 32) as char else c
  }

  /** `str.lower()` on the ASCII letters; every other character is kept. */
  function Lower(s: string): (r: string)
    ensures |r| == |s|
    ensures forall i :: 0 <= i < |s| ==> r[i] == LowerChar(s[i])
  {
    seq(|s|, i requires 0 <= i < |s| => LowerChar(s[i]))
  }

  predicate NoUpper(s: string)
  {
    forall i :: 0 <= i < |s| ==> !IsUpper(s[i])
  }

  /** Lowering a string without capitals is the identity. */
  lemma LowerFixesNoUpper(s: string)
    requires NoUpper(s)
    ensures Lower(s) == s
  {
  }

  /** No element occurs twice. */
  predicate Distinct<T(==)>(xs: seq<T>)
  {
    forall i, j :: 0 <= i < j < |xs| ==> xs[i] != xs[j]
  }

  /** A query `filter(...)` over a table: the keys satisfying `keep`, each
      listed once, in an order the model leaves open. */
  method Filter<K(==)>(keys: set<K>, keep: K -> bool) returns (xs: seq<K>)
    ensures forall k :: k in xs <==> k in keys && keep(k)
    ensures Distinct(xs)
  {
    xs := [];
    var rest := keys;
    while rest != {}
      invariant rest <= keys
      invariant forall k :: k in xs <==> k in keys && k !in rest && keep(k)
      invariant Distinct(xs)
      decreases rest
    {
      var k :| k in rest;
      if keep(k) {
        xs := xs + [k];
      }
      rest := rest - {k};
    }
  }
}
