/** The parsed JSON documents the generator works on, the Python errors its
    dictionary and list operations raise, and the few Python operations on
    such values that the generator uses (`d[k]`, `d.get(k, default)`,
    iteration, and `str()` inside an f-string). */
module Json {

  /** A value as `json.loads` returns it. Numbers, booleans and `null` are
      kept as the text Python's `str()` prints for them ("3", "True",
      "None"), which is all the generator ever does with them. */
  datatype Value =
    | Str(s: string)
    | Scalar(text: string)
    | Arr(items: seq<Value>)
    | Obj(fields: map<string, Value>)

  const Null := Scalar("None")

  /** The Python exceptions the modelled code can raise. `NotText` stands
      for an f-string interpolation of a list or dictionary, where Python
      would print the value's repr. */
  datatype Error =
    | KeyError(key: string)
    | TypeError
    | AttributeError
    | IndexError
    | NotText

  datatype Result<T> = Ok(value: T) | Err(error: Error) {
    predicate IsFailure() {
      Err?
    }

    function PropagateFailure<U>(): Result<U>
      requires Err?
    {
      Err(error)
    }

    function Extract(): T
      requires Ok?
    {
      value
    }

    /** The value passed through `f`, the error kept. */
    function Map<U>(f: T -> U): Result<U> {
      match this
      case Ok(v) => Ok(f(v))
      case Err(e) => Err(e)
    }
  }

  /** `v[key]`: a dictionary lookup; a missing key raises `KeyError`, and
      indexing a string, list, number or `None` with a string raises
      `TypeError`. */
  function Lookup(v: Value, key: string): (r: Result<Value>)
    ensures r.Ok? <==> v.Obj? && key in v.fields
    ensures r.Ok? ==> r.value == v.fields[key]
    ensures v.Obj? && key !in v.fields ==> r == Err(KeyError(key))
    ensures !v.Obj? ==> r == Err(TypeError)
  {
    match v
    case Obj(m) => if key in m then Ok(m[key]) else Err(KeyError(key))
    case _ => Err(TypeError)
  }

  /** `v.get(key, default)`: only dictionaries have `get`. */
  function GetOr(v: Value, key: string, default: Value): (r: Result<Value>)
    ensures r.Ok? <==> v.Obj?
    ensures v.Obj? ==> r.value == if key in v.fields then v.fields[key] else default
    ensures !v.Obj? ==> r == Err(AttributeError)
  {
    match v
    case Obj(m) => Ok(if key in m then m[key] else default)
    case _ => Err(AttributeError)
  }

  /** The elements a Python `for` loop visits in `v`. A string yields its
      characters; a dictionary yields its keys, which are strings, and every
      loop body in the generator fails on a string with the same exception,
      `keyError`, whatever the key; a number or `None` is not iterable. */
  function Elements(v: Value, keyError: Error): (r: Result<seq<Value>>)
    ensures v.Arr? ==> r == Ok(v.items)
    ensures v.Str? ==> r.Ok? && |r.value| == |v.s|
    ensures v.Str? ==> forall i :: 0 <= i < |v.s| ==> r.value[i] == Str([v.s[i]])
    ensures v.Obj? ==> r == if v.fields == map[] then Ok([]) else Err(keyError)
    ensures v.Scalar? ==> r == Err(TypeError)
  {
    match v
    case Arr(xs) => Ok(xs)
    case Str(s) => Ok(seq(|s|, i requires 0 <= i < |s| => Str([s[i]])))
    case Obj(m) => if m == map[] then Ok([]) else Err(keyError)
    case Scalar(_) => Err(TypeError)
  }

  /** `v` can be interpolated into an f-string by this model. */
  predicate Showable(v: Value) {
    v.Str? || v.Scalar?
  }

  /** `f"{v}"`: a string is inserted as it is, a number, boolean or `None`
      as its printed form. */
  function Show(v: Value): (r: Result<string>)
    ensures r.Ok? <==> Showable(v)
    ensures v.Str? ==> r == Ok(v.s)
    ensures v.Scalar? ==> r == Ok(v.text)
  {
    match v
    case Str(s) => Ok(s)
    case Scalar(t) => Ok(t)
    case _ => Err(NotText)
  }

  /** A value used where Python needs an actual `str` (string concatenation,
      `str.join`): anything else raises `TypeError`. */
  function AsStr(v: Value): (r: Result<string>)
    ensures r.Ok? <==> v.Str?
    ensures v.Str? ==> r.value == v.s
    ensures !v.Str? ==> r == Err(TypeError)
  {
    if v.Str? then Ok(v.s) else Err(TypeError)
  }

  // ---------------------------------------------------------------------
  // Loops that stop at the first exception

  /** Applying `f` to each element in order, as a Python loop does, and
      stopping at the first exception. Defined from the back, the way a loop
      extends what it has accumulated. */
  function MapResult<A, B>(xs: seq<A>, f: A -> Result<B>): Result<seq<B>> {
    if xs == [] then Ok([])
    else
      var init :- MapResult(xs[..|xs| - 1], f);
      var last :- f(xs[|xs| - 1]);
      Ok(init + [last])
  }

  /** One more successful iteration extends the accumulated results. */
  lemma {:induction false} MapResultExtend<A, B>(xs: seq<A>, k: nat, f: A -> Result<B>, done: seq<B>)
    requires k < |xs| && MapResult(xs[..k], f) == Ok(done) && f(xs[k]).Ok?
    ensures MapResult(xs[..k + 1], f) == Ok(done + [f(xs[k]).value])
  {
    assert xs[..k + 1][..k] == xs[..k];
  }

  /** An exception at element `k`, after `k` successful iterations, is the
      outcome of the whole loop. */
  lemma {:induction false} MapResultStops<A, B>(xs: seq<A>, k: nat, f: A -> Result<B>)
    requires k < |xs| && MapResult(xs[..k], f).Ok? && f(xs[k]).Err?
    ensures MapResult(xs, f) == Err(f(xs[k]).error)
  {
    if k + 1 == |xs| {
      assert xs[..|xs| - 1] == xs[..k];
    } else {
      assert xs[..|xs| - 1][..k] == xs[..k];
      MapResultStops(xs[..|xs| - 1], k, f);
    }
  }

  /** The loop succeeds exactly when every element succeeds, and then it
      yields the results element by element, in order. */
  lemma {:induction false} MapResultOk<A, B>(xs: seq<A>, f: A -> Result<B>)
    ensures MapResult(xs, f).Ok? <==> forall i :: 0 <= i < |xs| ==> f(xs[i]).Ok?
    ensures MapResult(xs, f).Ok? ==>
              |MapResult(xs, f).value| == |xs| &&
              forall i :: 0 <= i < |xs| ==> f(xs[i]) == Ok(MapResult(xs, f).value[i])
  {
    if xs != [] {
      var init := xs[..|xs| - 1];
      MapResultOk(init, f);
      assert forall i :: 0 <= i < |init| ==> init[i] == xs[i];
    }
  }

  /** When the loop fails, it fails with the exception of the first element
      that fails. */
  lemma {:induction false} MapResultFirstError<A, B>(xs: seq<A>, f: A -> Result<B>)
    requires MapResult(xs, f).Err?
    ensures exists k :: 0 <= k < |xs| && f(xs[k]) == Err(MapResult(xs, f).error) &&
              forall i :: 0 <= i < k ==> f(xs[i]).Ok?
  {
    var init := xs[..|xs| - 1];
    assert forall i :: 0 <= i < |init| ==> init[i] == xs[i];
    if MapResult(init, f).Err? {
      MapResultFirstError(init, f);
      var k :| 0 <= k < |init| && f(init[k]) == Err(MapResult(init, f).error) &&
                forall i :: 0 <= i < k ==> f(init[i]).Ok?;
      assert f(xs[k]) == Err(MapResult(xs, f).error);
    } else {
      MapResultOk(init, f);
      assert f(xs[|xs| - 1]) == Err(MapResult(xs, f).error);
    }
  }

  /** Running the loop over two pieces one after the other is running it
      over the whole. */
  lemma {:induction false} MapResultAppend<A, B>(xs: seq<A>, ys: seq<A>, f: A -> Result<B>)
    requires MapResult(xs, f).Ok? && MapResult(ys, f).Ok?
    ensures MapResult(xs + ys, f) == Ok(MapResult(xs, f).value + MapResult(ys, f).value)
  {
    if ys == [] {
      assert xs + ys == xs;
      assert MapResult(ys, f) == Ok([]);
      assert MapResult(xs, f).value + [] == MapResult(xs, f).value;
    } else {
      var init := ys[..|ys| - 1];
      MapResultAppend(xs, init, f);
      assert (xs + ys)[..|xs + ys| - 1] == xs + init;
      assert (xs + ys)[|xs + ys| - 1] == ys[|ys| - 1];
      var a, b, c := MapResult(xs, f).value, MapResult(init, f).value, f(ys[|ys| - 1]).value;
      assert MapResult(ys, f).value == b + [c];
      assert MapResult(xs + ys, f) == Ok((a + b) + [c]);
      assert (a + b) + [c] == a + (b + [c]);
    }
  }

  /** The strings of `pieces` written one after the other. */
  function Concat(pieces: seq<string>): string {
    if pieces == [] then "" else Concat(pieces[..|pieces| - 1]) + pieces[|pieces| - 1]
  }
}
