/** Parsed JSON bodies, and the two ways the core reads into them: pydantic alias paths, which
    quietly miss, and Python subscripting, which raises. */
module Json {
  import opened Wrappers
  import opened Errors

  datatype Json =
    | Null
    | Bool(b: bool)
    | Num(n: real)
    | Str(s: string)
    | Arr(items: seq<Json>)
    | Obj(fields: map<string, Json>)

  /** One element of a pydantic `AliasPath`: a dict key or a list position. */
  datatype Step = Key(key: string) | Pos(pos: nat)

  type Path = seq<Step>

  /** Follows one step; `None` when the key is absent, the position is out of range,
      or the value is not a dict (for a key) or not a list (for a position). */
  function Child(j: Json, step: Step): Option<Json>
  {
    match step
    case Key(k) => if j.Obj? && k in j.fields then Some(j.fields[k]) else None
    case Pos(i) => if j.Arr? && i < |j.items| then Some(j.items[i]) else None
  }

  /** The value an alias path designates, if it resolves. A key that is present with a JSON
      null resolves (to `Null`); only absence makes a path miss. */
  function Lookup(j: Json, path: Path): Option<Json>
    decreases |path|
  {
    if path == [] then Some(j)
    else
      match Child(j, path[0])
      case None => None
      case Some(c) => Lookup(c, path[1..])
  }

  /** Following `p + q` is following `p`, then `q` from where `p` ended. */
  lemma {:induction false} LookupConcat(j: Json, p: Path, q: Path)
    ensures Lookup(j, p + q) == match Lookup(j, p) case None => None case Some(c) => Lookup(c, q)
    decreases |p|
  {
    if p != [] {
      assert (p + q)[0] == p[0];
      assert (p + q)[1..] == p[1..] + q;
      match Child(j, p[0])
      case None =>
      case Some(c) => LookupConcat(c, p[1..], q);
    } else {
      assert p + q == q;
    }
  }

  /** Path `choices[i]` is the first of the choices that resolves. */
  ghost predicate ResolvesFirstAt(j: Json, choices: seq<Path>, i: int)
  {
    && 0 <= i < |choices|
    && Lookup(j, choices[i]).Some?
    && forall k :: 0 <= k < i ==> Lookup(j, choices[k]).None?
  }

  /** pydantic `AliasChoices`: the value at the first path, in order, that resolves. */
  function FirstResolved(j: Json, choices: seq<Path>): (r: Option<Json>)
    ensures r.Some? <==> exists i :: 0 <= i < |choices| && Lookup(j, choices[i]).Some?
    ensures forall i :: ResolvesFirstAt(j, choices, i) ==> r == Lookup(j, choices[i])
    ensures r.None? ==> forall i :: 0 <= i < |choices| ==> Lookup(j, choices[i]).None?
  {
    if choices == [] then None
    else
      match Lookup(j, choices[0])
      case Some(v) =>
        assert ResolvesFirstAt(j, choices, 0);
        Some(v)
      case None =>
        var rest := FirstResolved(j, choices[1..]);
        assert forall i :: 0 < i < |choices| ==> choices[i] == choices[1..][i - 1];
        assert forall i :: ResolvesFirstAt(j, choices, i) ==> i > 0 && ResolvesFirstAt(j, choices[1..], i - 1);
        rest
  }

  /** Python `value[i]` for a non-negative integer `i`: lists and strings are indexable, a dict
      has no integer keys, and nothing else is subscriptable. */
  function Subscript(j: Json, i: nat): (r: Result<Json, Crash>)
    ensures r == Err(IndexError) <==> (j.Arr? && i >= |j.items|) || (j.Str? && i >= |j.s|)
    ensures r.Ok? ==> j.Arr? || j.Str?
  {
    match j
    case Arr(items) => if i < |items| then Ok(items[i]) else Err(IndexError)
    case Str(s) => if i < |s| then Ok(Str([s[i]])) else Err(IndexError)
    case Obj(_) => Err(KeyError)
    case _ => Err(TypeError)
  }

  /** Python `value[k]` for a string key `k`: only a dict holding `k` answers. */
  function Item(j: Json, k: string): (r: Result<Json, Crash>)
    ensures r.Ok? <==> j.Obj? && k in j.fields
    ensures r.Err? ==> r.error != IndexError
  {
    match j
    case Obj(fields) => if k in fields then Ok(fields[k]) else Err(KeyError)
    case _ => Err(TypeError)
  }
}
