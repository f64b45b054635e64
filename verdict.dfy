/**
 * The oracle's verdict and its normalisation into a retry flag and an integer
 * delay (the "handle results" block of the retry loop).
 *
 * The oracle may answer with a mapping (read with `.get(key)`, which yields
 * None for a missing key) or with an object (read with `getattr(obj, key,
 * default)`, whose defaults are False for `should_retry` and 0 for `delay`).
 * The delay is then coerced with `int(delay or 0)`.
 */
module Verdict {

  datatype Option<+T> = None | Some(value: T) {
    function GetOr(default: T): T
    {
      match this
      case Some(v) => v
      case None => default
    }
  }

  /** The Python values a verdict field can hold, as far as the normalisation reads them. */
  datatype PyValue = PyNone | PyBool(b: bool) | PyInt(i: int)

  /** Python truthiness of a value. */
  predicate Truthy(v: PyValue)
  {
    match v
    case PyNone => false
    case PyBool(b) => b
    case PyInt(i) => i != 0
  }

  /** Python's `a or b`: the first operand when it is truthy, otherwise the second. */
  function Or(a: PyValue, b: PyValue): PyValue
  {
    if Truthy(a) then a else b
  }

  /** Python's `int(v)` on a bool or an int (`int(None)` would raise, so None is excluded). */
  function ToInt(v: PyValue): int
    requires !v.PyNone?
  {
    match v
    case PyBool(b) => if b then 1 else 0
    case PyInt(i) => i
  }

  /** Whether the verdict object is a mapping (`dict`) or exposes its fields as attributes. */
  datatype Style = Mapping | Attributes

  /** A verdict as the oracle returned it: each of the two fields may be absent. */
  datatype RawVerdict = RawVerdict(style: Style, shouldRetry: Option<PyValue>, delay: Option<PyValue>)

  /** The normalised verdict the loop acts on. */
  datatype Decision = Decision(retry: bool, delay: int)

  /** Reading one field: `.get(key)` on a mapping, `getattr(obj, key, attrDefault)` otherwise. */
  function Lookup(style: Style, field: Option<PyValue>, attrDefault: PyValue): PyValue
  {
    match style
    case Mapping => field.GetOr(PyNone)
    case Attributes => field.GetOr(attrDefault)
  }

  /**
   * Normalises a raw verdict. A missing `should_retry` never asks for a retry
   * (None for a mapping, False for an object); a missing, None, False or 0
   * delay becomes 0; any other delay is coerced with `int`.
   */
  function Normalize(raw: RawVerdict): (d: Decision)
    ensures raw.shouldRetry.None? ==> !d.retry
    ensures raw.shouldRetry.Some? ==> (d.retry <==> Truthy(raw.shouldRetry.value))
    ensures raw.delay.None? ==> d.delay == 0
    ensures raw.delay.Some? && !Truthy(raw.delay.value) ==> d.delay == 0
    ensures raw.delay.Some? && Truthy(raw.delay.value) ==> d.delay == ToInt(raw.delay.value)
  {
    var shouldRetry := Lookup(raw.style, raw.shouldRetry, PyBool(false));
    var delay := Lookup(raw.style, raw.delay, PyInt(0));
    Decision(Truthy(shouldRetry), ToInt(Or(delay, PyInt(0))))
  }

  /** The two-field shape the oracle is instructed to return: `{should_retry: bool, delay: int}`. */
  function Encode(d: Decision, style: Style): (raw: RawVerdict)
    ensures raw.shouldRetry.Some? && raw.shouldRetry.value.PyBool?
    ensures raw.delay.Some? && raw.delay.value.PyInt?
  {
    RawVerdict(style, Some(PyBool(d.retry)), Some(PyInt(d.delay)))
  }

  /** A verdict of the intended two-field shape is read back unchanged, in either style. */
  lemma NormalizeEncode(d: Decision, style: Style)
    ensures Normalize(Encode(d, style)) == d
  {
  }

  /** Mapping and attribute verdicts with the same fields normalise alike: the two defaults agree. */
  lemma StyleIrrelevant(raw: RawVerdict, style: Style)
    ensures Normalize(raw.(style := style)) == Normalize(raw)
  {
  }
}
