/**
 Telephony credentials as JSON trees: reading and writing dotted paths, masking
 secrets for display, restoring masks that come back unchanged, and keeping the
 fields that only the server manages.
 */
module TelephonyCredentials {
  import opened Common

  datatype Json =
    | Null
    | Str(text: string)
    | Num(number: int)
    | Bool(truth: bool)
    | Arr(items: seq<Json>)
    | Obj(fields: map<string, Json>)

  type Fields = map<string, Json>

  /** A dotted path, split at the dots. */
  type Path = p: seq<string> | p != [] witness ["field"]

  // ---------- Nested reads and writes ----------

  /** A missing key reads as null. */
  function Lookup(m: Fields, key: string): Json {
    if key in m then m[key] else Null
  }

  function Get(v: Json, path: seq<string>): Json
    decreases |path|
  {
    if path == [] then v
    else if !v.Obj? then Null
    else Get(Lookup(v.fields, path[0]), path[1..])
  }

  function Child(m: Fields, key: string): Fields {
    if Lookup(m, key).Obj? then Lookup(m, key).fields else map[]
  }

  function Set(m: Fields, path: Path, v: Json): Fields
    decreases |path|
  {
    if |path| == 1 then m[path[0] := v]
    else m[path[0] := Obj(Set(Child(m, path[0]), path[1..], v))]
  }

  method GetNestedField(value: Json, path: Path) returns (r: Json)
    ensures r == Get(value, path)
  {
    var current := value;
    var i := 0;
    while i < |path|
      invariant 0 <= i <= |path|
      invariant Get(current, path[i..]) == Get(value, path)
    {
      if !current.Obj? {
        return Null;
      }
      current := Lookup(current.fields, path[i]);
      i := i + 1;
    }
    return current;
  }

  predicate Incomparable(p: Path, q: Path) {
    !(p <= q) && !(q <= p)
  }

  lemma IncomparableTails(p: Path, q: Path)
    requires Incomparable(p, q) && p[0] == q[0]
    ensures |p| > 1 && |q| > 1 && Incomparable(p[1..], q[1..])
  {
    assert p == [p[0]] + p[1..] && q == [q[0]] + q[1..];
  }

  lemma {:induction false} GetAfterSet(m: Fields, p: Path, v: Json)
    ensures Get(Obj(Set(m, p, v)), p) == v
    decreases |p|
  {
    if |p| > 1 {
      GetAfterSet(Child(m, p[0]), p[1..], v);
    }
  }

  lemma {:induction false} SetAfterSet(m: Fields, p: Path, v: Json, w: Json)
    ensures Set(Set(m, p, v), p, w) == Set(m, p, w)
    decreases |p|
  {
    if |p| > 1 {
      SetAfterSet(Child(m, p[0]), p[1..], v, w);
    }
  }

  lemma {:induction false} SetOfGet(m: Fields, p: Path)
    requires Get(Obj(m), p) != Null
    ensures Set(m, p, Get(Obj(m), p)) == m
    decreases |p|
  {
    if |p| > 1 {
      SetOfGet(Child(m, p[0]), p[1..]);
    }
  }

  lemma {:induction false} GetIgnoresIncomparableSet(m: Fields, p: Path, q: Path, v: Json)
    requires Incomparable(p, q)
    ensures Get(Obj(Set(m, p, v)), q) == Get(Obj(m), q)
    decreases |p|
  {
    if p[0] == q[0] {
      IncomparableTails(p, q);
      GetIgnoresIncomparableSet(Child(m, p[0]), p[1..], q[1..], v);
      if !Lookup(m, p[0]).Obj? {
        assert Get(Obj(map[]), q[1..]) == Null;
      }
    }
  }

  lemma SetTwiceUnderOneKey(m: Fields, p: Path, q: Path, v: Json, w: Json)
    requires |p| > 1 && |q| > 1 && p[0] == q[0]
    ensures Set(Set(m, p, v), q, w) == m[p[0] := Obj(Set(Set(Child(m, p[0]), p[1..], v), q[1..], w))]
  {
    var inner := Set(Child(m, p[0]), p[1..], v);
    assert Set(m, p, v) == m[p[0] := Obj(inner)];
    assert Child(m[p[0] := Obj(inner)], p[0]) == inner;
  }

  lemma SetTwiceUnderTwoKeys(m: Fields, p: Path, q: Path, v: Json, w: Json)
    requires p[0] != q[0]
    ensures Set(Set(m, p, v), q, w) == m[p[0] := Set(m, p, v)[p[0]]][q[0] := Set(m, q, w)[q[0]]]
  {
    assert Child(Set(m, p, v), q[0]) == Child(m, q[0]);
  }

  lemma {:induction false} IncomparableSetsCommute(m: Fields, p: Path, q: Path, v: Json, w: Json)
    requires Incomparable(p, q)
    ensures Set(Set(m, p, v), q, w) == Set(Set(m, q, w), p, v)
    decreases |p|
  {
    if p[0] == q[0] {
      IncomparableTails(p, q);
      IncomparableSetsCommute(Child(m, p[0]), p[1..], q[1..], v, w);
      SetTwiceUnderOneKey(m, p, q, v, w);
      SetTwiceUnderOneKey(m, q, p, w, v);
    } else {
      SetsUnderTwoKeysCommute(m, p, q, v, w);
    }
  }

  lemma SetsUnderTwoKeysCommute(m: Fields, p: Path, q: Path, v: Json, w: Json)
    requires p[0] != q[0]
    ensures Set(Set(m, p, v), q, w) == Set(Set(m, q, w), p, v)
  {
    SetTwiceUnderTwoKeys(m, p, q, v, w);
    SetTwiceUnderTwoKeys(m, q, p, w, v);
    var x, y := Set(m, p, v)[p[0]], Set(m, q, w)[q[0]];
    assert m[p[0] := x][q[0] := y] == m[q[0] := y][p[0] := x];
  }

  // ---------- Masks ----------

  const VISIBLE_CHARS := 4

  function Stars(n: nat): (stars: string)
    ensures |stars| == n
  {
    seq(n, _ => '*')
  }

  function MaskKey(s: string): string {
    if VISIBLE_CHARS >= |s| then Stars(|s|)
    else Stars(|s| - VISIBLE_CHARS) + s[|s| - VISIBLE_CHARS..]
  }

  /** A mask shows the length and, of more than four characters, the last four: secrets
      have the same mask exactly when they agree on those. */
  lemma MaskRevealsOnlyTheTail(s: string, t: string)
    ensures |MaskKey(s)| == |s|
    ensures forall i :: 0 <= i < |s| ==> MaskKey(s)[i] == if |s| > 4 && i >= |s| - 4 then s[i] else '*'
    ensures MaskKey(s) == MaskKey(t)
            <==> |s| == |t| && (|s| > 4 ==> forall i :: |s| - 4 <= i < |s| ==> s[i] == t[i])
  {
    assert |MaskKey(s)| == |s| && |MaskKey(t)| == |t|;
    forall i | 0 <= i < |s| ensures MaskKey(s)[i] == if |s| > 4 && i >= |s| - 4 then s[i] else '*' {}
    forall i | 0 <= i < |t| ensures MaskKey(t)[i] == if |t| > 4 && i >= |t| - 4 then t[i] else '*' {}
  }

  predicate Truthy(v: Json) {
    match v
    case Null => false
    case Str(text) => text != ""
    case Num(number) => number != 0
    case Bool(truth) => truth
    case Arr(items) => items != []
    case Obj(fields) => fields != map[]
  }

  /** The values that count as empty. */
  lemma FalsyValues(v: Json)
    ensures !Truthy(v) <==> v in {Null, Str(""), Num(0), Bool(false), Arr([]), Obj(map[])}
  {
  }

  /** str() of a value that is not a string. */
  type Rendering = Json -> string

  function Text(show: Rendering, v: Json): string {
    if v.Str? then v.text else show(v)
  }

  /** The mask of a stored value as the comparison computes it, which takes the value
      itself where display takes its text; numbers, booleans and larger objects have
      no length or no slice, and the comparison raises. */
  function MaskOf(show: Rendering, stored: Json): Option<string> {
    if !Truthy(stored) then Some("")
    else match stored
      case Str(text) => Some(MaskKey(text))
      case Arr(items) =>
        Some(if VISIBLE_CHARS >= |items| then Stars(|items|)
             else Stars(|items| - VISIBLE_CHARS) + show(Arr(items[|items| - VISIBLE_CHARS..])))
      case Obj(fields) => if VISIBLE_CHARS >= |fields| then Some(Stars(|fields|)) else None
      case _ => None
  }

  /** `is_mask_of(v, stored or "")` */
  predicate IsMaskOf(show: Rendering, v: Json, stored: Json) {
    MaskOf(show, stored).Some? && v == Str(MaskOf(show, stored).value)
  }

  /** The mask the client is shown is the one the comparison expects back. */
  predicate MaskReturns(show: Rendering, v: Json) {
    Truthy(v) ==> MaskKey(Text(show, v)) != "" && MaskOf(show, v) == Some(MaskKey(Text(show, v)))
  }

  lemma StringMasksReturn(show: Rendering, v: Json)
    requires !Truthy(v) || v.Str?
    ensures MaskReturns(show, v)
  {
    if v.Str? && v.text != "" {
      assert |MaskKey(v.text)| == |v.text|;
    }
  }

  /** A stored list is masked item by item for the comparison and as one text for
      display; of up to four items, the mask returns only if the text is as long. */
  lemma ListMasksReturn(show: Rendering, items: seq<Json>)
    requires items != []
    ensures |items| <= 4 ==> (MaskReturns(show, Arr(items)) <==> |show(Arr(items))| == |items|)
    ensures |items| > 4 ==>
      (MaskReturns(show, Arr(items)) <==>
         MaskKey(show(Arr(items))) == Stars(|items| - 4) + show(Arr(items[|items| - 4..])))
  {
    var text := show(Arr(items));
    MaskRevealsOnlyTheTail(text, text);
    if |items| <= 4 && |text| == |items| {
      assert MaskKey(text) == Stars(|items|);
    }
  }

  predicate PairwiseIncomparable(paths: seq<Path>) {
    forall i, j :: 0 <= i < j < |paths| ==> Incomparable(paths[i], paths[j])
  }

  // ---------- Display and restore ----------

  function MaskOne(show: Rendering, m: Fields, f: Path): Fields {
    var v := Get(Obj(m), f);
    if Truthy(v) then Set(m, f, Str(MaskKey(Text(show, v)))) else m
  }

  /** A provider's spec as far as credentials go; an unregistered provider has none of it. */
  datatype Provider = Provider(
    sensitive: seq<Path>,
    accountField: string,              // "" when the provider has no account id
    serverManaged: seq<string>,
    accountScoped: set<string>)        // server-managed fields tied to the account

  predicate WellFormed(p: Provider) {
    PairwiseIncomparable(p.sensitive)
  }

  method CredentialsForDisplay(show: Rendering, p: Provider, value: Fields) returns (out: Fields)
    ensures out == Displayed(show, p, value)
    ensures forall k :: k in p.serverManaged ==> k !in out
  {
    out := value;
    var i := 0;
    while i < |p.sensitive|
      invariant 0 <= i <= |p.sensitive|
      invariant MaskAll(show, out, p.sensitive[i..]) == MaskAll(show, value, p.sensitive)
    {
      var f := p.sensitive[i];
      assert p.sensitive[i..][0] == f && p.sensitive[i..][1..] == p.sensitive[i + 1..];
      var v := GetNestedField(Obj(out), f);
      if Truthy(v) {
        out := Set(out, f, Str(MaskKey(Text(show, v))));
      }
      i := i + 1;
    }
    var j := 0;
    ghost var masked := out;
    while j < |p.serverManaged|
      invariant 0 <= j <= |p.serverManaged|
      invariant out == masked - Names(p.serverManaged[..j])
    {
      out := map k | k in out && k != p.serverManaged[j] :: out[k];
      j := j + 1;
    }
    assert p.serverManaged[..j] == p.serverManaged;
  }

  /** Masking the sensitive paths one after another. */
  function MaskAll(show: Rendering, m: Fields, sensitive: seq<Path>): Fields
    decreases |sensitive|
  {
    if sensitive == [] then m else MaskAll(show, MaskOne(show, m, sensitive[0]), sensitive[1..])
  }

  function Displayed(show: Rendering, p: Provider, value: Fields): Fields {
    MaskAll(show, value, p.sensitive) - Names(p.serverManaged)
  }

  function PreserveOne(show: Rendering, request: Fields, stored: Fields, f: Path): Fields {
    var v, kept := Get(Obj(request), f), Get(Obj(stored), f);
    if Truthy(v) && IsMaskOf(show, v, kept) then Set(request, f, kept) else request
  }

  function PreserveAll(show: Rendering, request: Fields, stored: Fields, sensitive: seq<Path>): Fields
    decreases |sensitive|
  {
    if sensitive == [] then request
    else PreserveAll(show, PreserveOne(show, request, stored, sensitive[0]), stored, sensitive[1..])
  }

  /** A filled field is compared with a stored value that cannot be masked. */
  predicate RaisesAt(show: Rendering, request: Fields, stored: Fields, f: Path) {
    Truthy(Get(Obj(request), f)) && MaskOf(show, Get(Obj(stored), f)).None?
  }

  predicate Raises(show: Rendering, request: Fields, stored: Fields, sensitive: seq<Path>)
    decreases |sensitive|
  {
    sensitive != []
    && (RaisesAt(show, request, stored, sensitive[0])
        || Raises(show, PreserveOne(show, request, stored, sensitive[0]), stored, sensitive[1..]))
  }

  datatype MaskError = UnmaskableSecret

  method PreserveMaskedFields(show: Rendering, p: Provider, request: Fields, existing: Fields)
    returns (r: Result<Fields, MaskError>)
    ensures r == if Raises(show, request, existing, p.sensitive) then Err(UnmaskableSecret)
                 else Ok(PreserveAll(show, request, existing, p.sensitive))
  {
    var restored := request;
    var i := 0;
    while i < |p.sensitive|
      invariant 0 <= i <= |p.sensitive|
      invariant PreserveAll(show, restored, existing, p.sensitive[i..])
                == PreserveAll(show, request, existing, p.sensitive)
      invariant Raises(show, restored, existing, p.sensitive[i..]) == Raises(show, request, existing, p.sensitive)
    {
      var f := p.sensitive[i];
      assert p.sensitive[i..][0] == f && p.sensitive[i..][1..] == p.sensitive[i + 1..];
      var v := GetNestedField(Obj(restored), f);
      var kept := GetNestedField(Obj(existing), f);
      if Truthy(v) {
        if MaskOf(show, kept).None? {
          return Err(UnmaskableSecret);
        }
        if IsMaskOf(show, v, kept) {
          restored := Set(restored, f, kept);
        }
      }
      i := i + 1;
    }
    return Ok(restored);
  }

  lemma FalsyAreNotMasked(show: Rendering, request: Fields, stored: Fields, sensitive: seq<Path>)
    ensures forall i :: 0 <= i < |sensitive| ==>
      (RaisesAt(show, request, stored, sensitive[i]) <==>
         Get(Obj(request), sensitive[i]) !in {Null, Str(""), Num(0), Bool(false), Arr([]), Obj(map[])}
         && match Get(Obj(stored), sensitive[i])
            case Num(number) => number != 0
            case Bool(truth) => truth
            case Obj(fields) => |fields| > 4
            case _ => false)
  {
    forall i | 0 <= i < |sensitive|
      ensures Truthy(Get(Obj(request), sensitive[i])) <==>
        Get(Obj(request), sensitive[i]) !in {Null, Str(""), Num(0), Bool(false), Arr([]), Obj(map[])}
    {
      FalsyValues(Get(Obj(request), sensitive[i]));
    }
  }

  /** A save raises exactly when the client fills a field whose stored value cannot be masked. */
  lemma {:induction false} RaisesExactlyOnUnmaskableSecret(show: Rendering, request: Fields, stored: Fields,
                                                           sensitive: seq<Path>)
    requires PairwiseIncomparable(sensitive)
    ensures Raises(show, request, stored, sensitive)
            <==> exists i :: 0 <= i < |sensitive| && RaisesAt(show, request, stored, sensitive[i])
    ensures forall i :: 0 <= i < |sensitive| ==>
      (RaisesAt(show, request, stored, sensitive[i]) <==>
         Get(Obj(request), sensitive[i]) !in {Null, Str(""), Num(0), Bool(false), Arr([]), Obj(map[])}
         && match Get(Obj(stored), sensitive[i])
            case Num(number) => number != 0
            case Bool(truth) => truth
            case Obj(fields) => |fields| > 4
            case _ => false)
    decreases |sensitive|
  {
    FalsyAreNotMasked(show, request, stored, sensitive);
    if sensitive != [] {
      var f, rest := sensitive[0], sensitive[1..];
      var next := PreserveOne(show, request, stored, f);
      RaisesExactlyOnUnmaskableSecret(show, next, stored, rest);
      forall i | 0 <= i < |rest|
        ensures RaisesAt(show, next, stored, rest[i]) <==> RaisesAt(show, request, stored, sensitive[i + 1])
      {
        GetIgnoresIncomparableSet(request, f, rest[i], Get(Obj(stored), f));
      }
      if i :| 0 <= i < |sensitive| && RaisesAt(show, request, stored, sensitive[i]) {
        if i > 0 {
          assert RaisesAt(show, next, stored, rest[i - 1]);
        }
      }
    }
  }

  /** What a save leaves at each sensitive path: the stored secret where its mask
      came back, otherwise whatever the client sent. */
  lemma {:induction false} PreserveKeepsNewSecrets(show: Rendering, request: Fields, stored: Fields,
                                                   sensitive: seq<Path>, i: nat)
    requires PairwiseIncomparable(sensitive) && i < |sensitive|
    ensures var v, kept := Get(Obj(request), sensitive[i]), Get(Obj(stored), sensitive[i]);
      Get(Obj(PreserveAll(show, request, stored, sensitive)), sensitive[i])
      == if Truthy(v) && IsMaskOf(show, v, kept) then kept else v
    ensures var v, kept := Get(Obj(request), sensitive[i]), Get(Obj(stored), sensitive[i]);
      kept.Str? && kept.text != "" ==>
        Get(Obj(PreserveAll(show, request, stored, sensitive)), sensitive[i])
        == if v == Str(MaskKey(kept.text)) then kept else v
    decreases |sensitive|
  {
    if Get(Obj(stored), sensitive[i]).Str? {
      StringMasksReturn(show, Get(Obj(stored), sensitive[i]));
    }
    var f := sensitive[0];
    var next := PreserveOne(show, request, stored, f);
    if i == 0 {
      GetAfterSet(request, f, Get(Obj(stored), f));
      PreserveIgnoresIncomparable(show, next, stored, sensitive[1..], f);
    } else {
      GetIgnoresIncomparableSet(request, f, sensitive[i], Get(Obj(stored), f));
      PreserveKeepsNewSecrets(show, next, stored, sensitive[1..], i - 1);
    }
  }

  /** A path comparable to no sensitive path keeps what the client sent. */
  lemma {:induction false} PreserveIgnoresIncomparable(
    show: Rendering, request: Fields, stored: Fields, sensitive: seq<Path>, q: Path)
    requires forall i :: 0 <= i < |sensitive| ==> Incomparable(q, sensitive[i])
    ensures Get(Obj(PreserveAll(show, request, stored, sensitive)), q) == Get(Obj(request), q)
    decreases |sensitive|
  {
    if sensitive != [] {
      GetIgnoresIncomparableSet(request, sensitive[0], q, Get(Obj(stored), sensitive[0]));
      PreserveIgnoresIncomparable(
        show, PreserveOne(show, request, stored, sensitive[0]), stored, sensitive[1..], q);
    }
  }

  lemma {:induction false} GetThroughMasks(show: Rendering, m: Fields, sensitive: seq<Path>, q: Path)
    requires forall i :: 0 <= i < |sensitive| ==> Incomparable(q, sensitive[i])
    ensures Get(Obj(MaskAll(show, m, sensitive)), q) == Get(Obj(m), q)
    decreases |sensitive|
  {
    if sensitive != [] {
      var v := Get(Obj(m), sensitive[0]);
      GetIgnoresIncomparableSet(m, sensitive[0], q, Str(MaskKey(Text(show, v))));
      GetThroughMasks(show, MaskOne(show, m, sensitive[0]), sensitive[1..], q);
    }
  }

  /** Every filled sensitive field is shown as the mask of its text, whatever its type. */
  lemma {:induction false} EverySecretIsMasked(show: Rendering, m: Fields, sensitive: seq<Path>, i: nat)
    requires PairwiseIncomparable(sensitive) && i < |sensitive|
    ensures var v := Get(Obj(m), sensitive[i]);
      Get(Obj(MaskAll(show, m, sensitive)), sensitive[i])
      == if Truthy(v) then Str(MaskKey(Text(show, v))) else v
    decreases |sensitive|
  {
    var f := sensitive[0];
    var mask := Str(MaskKey(Text(show, Get(Obj(m), f))));
    if i == 0 {
      GetAfterSet(m, f, mask);
      GetThroughMasks(show, MaskOne(show, m, f), sensitive[1..], f);
    } else {
      GetIgnoresIncomparableSet(m, f, sensitive[i], mask);
      EverySecretIsMasked(show, MaskOne(show, m, f), sensitive[1..], i - 1);
    }
  }

  lemma MaskOneThroughSet(show: Rendering, m: Fields, g: Path, f: Path, v: Json)
    requires Incomparable(g, f)
    ensures MaskOne(show, Set(m, f, v), g) == Set(MaskOne(show, m, g), f, v)
  {
    GetIgnoresIncomparableSet(m, f, g, v);
    IncomparableSetsCommute(m, g, f, Str(MaskKey(Text(show, Get(Obj(m), g)))), v);
  }

  lemma {:induction false} SetThroughMasks(show: Rendering, m: Fields, sensitive: seq<Path>, q: Path, v: Json)
    requires forall i :: 0 <= i < |sensitive| ==> Incomparable(q, sensitive[i])
    ensures Set(MaskAll(show, m, sensitive), q, v) == MaskAll(show, Set(m, q, v), sensitive)
    decreases |sensitive|
  {
    if sensitive != [] {
      MaskOneThroughSet(show, m, sensitive[0], q, v);
      SetThroughMasks(show, MaskOne(show, m, sensitive[0]), sensitive[1..], q, v);
    }
  }

  lemma MaskOfSet(show: Rendering, m: Fields, f: Path, secret: string)
    requires secret != ""
    ensures MaskOne(show, Set(m, f, Str(secret)), f) == Set(m, f, Str(MaskKey(secret)))
  {
    GetAfterSet(m, f, Str(secret));
    SetAfterSet(m, f, Str(secret), Str(MaskKey(secret)));
  }

  /** A client cannot tell two secrets with the same mask apart: the masked trees are
      equal, at whichever sensitive path the secret is stored. */
  lemma {:induction false} MasksHideSecrets(show: Rendering, m: Fields, sensitive: seq<Path>, i: nat,
                                            a: string, b: string)
    requires PairwiseIncomparable(sensitive) && i < |sensitive|
    requires a != "" && b != "" && MaskKey(a) == MaskKey(b)
    ensures MaskAll(show, Set(m, sensitive[i], Str(a)), sensitive)
            == MaskAll(show, Set(m, sensitive[i], Str(b)), sensitive)
    decreases |sensitive|
  {
    var f, g := sensitive[i], sensitive[0];
    if i == 0 {
      MaskOfSet(show, m, f, a);
      MaskOfSet(show, m, f, b);
    } else {
      MaskOneThroughSet(show, m, g, f, Str(a));
      MaskOneThroughSet(show, m, g, f, Str(b));
      MasksHideSecrets(show, MaskOne(show, m, g), sensitive[1..], i - 1, a, b);
    }
  }

  /** Restoring undoes masking. */
  lemma {:induction false} PreserveUndoesMasks(show: Rendering, m: Fields, stored: Fields, sensitive: seq<Path>)
    requires PairwiseIncomparable(sensitive)
    requires forall i :: 0 <= i < |sensitive| ==> MaskReturns(show, Get(Obj(m), sensitive[i]))
    requires forall i :: 0 <= i < |sensitive| && Truthy(Get(Obj(m), sensitive[i])) ==>
      Get(Obj(stored), sensitive[i]) == Get(Obj(m), sensitive[i])
    ensures PreserveAll(show, MaskAll(show, m, sensitive), stored, sensitive) == m
    decreases |sensitive|
  {
    if sensitive != [] {
      var f, rest := sensitive[0], sensitive[1..];
      RestoringOneUndoesItsMask(show, m, stored, sensitive);
      PreserveUndoesMasks(show, m, stored, rest);
    }
  }

  lemma RestoringOneUndoesItsMask(show: Rendering, m: Fields, stored: Fields, sensitive: seq<Path>)
    requires PairwiseIncomparable(sensitive) && sensitive != []
    requires MaskReturns(show, Get(Obj(m), sensitive[0]))
    requires Truthy(Get(Obj(m), sensitive[0])) ==> Get(Obj(stored), sensitive[0]) == Get(Obj(m), sensitive[0])
    ensures PreserveOne(show, MaskAll(show, m, sensitive), stored, sensitive[0]) == MaskAll(show, m, sensitive[1..])
  {
    var f, rest := sensitive[0], sensitive[1..];
    var v := Get(Obj(m), f);
    EverySecretIsMasked(show, m, sensitive, 0);
    if Truthy(v) {
      var mask := Str(MaskKey(Text(show, v)));
      SetAfterSet(m, f, mask, v);
      SetOfGet(m, f);
      SetThroughMasks(show, Set(m, f, mask), rest, f, v);
    }
  }

  // ---------- Server-managed fields ----------

  predicate AccountChanged(p: Provider, credentials: Fields, existing: Option<Fields>) {
    existing.Some? && p.accountField != ""
    && Lookup(credentials, p.accountField) != Lookup(existing.value, p.accountField)
  }

  /** Both have the same account id, absent ids included, or the provider has none. */
  predicate SameAccount(p: Provider, a: Fields, b: Fields) {
    p.accountField == ""
    || Get(Obj(a), [p.accountField]) == Get(Obj(b), [p.accountField])
  }

  /** The server-managed fields a save keeps. */
  function Kept(p: Provider, credentials: Fields, existing: Option<Fields>): Fields {
    if existing.None? then map[]
    else map k | k in existing.value && k in p.serverManaged
                 && !(AccountChanged(p, credentials, existing) && k in p.accountScoped) :: existing.value[k]
  }

  /** The save hook of the route, with the provider's own hook left as identity:
      server-managed fields come from the stored row only, and those tied to an
      account are dropped when the account changes. */
  method RunPreprocessHook(p: Provider, credentials: Fields, existing: Option<Fields>) returns (saved: Fields)
    ensures saved == Hooked(p, credentials, existing)
    // a server-managed field comes from the stored row, unless it belongs to another account
    ensures forall k :: k in p.serverManaged ==>
      (k in saved <==>
         && existing.Some? && k in existing.value
         && (k in p.accountScoped && p.accountField != "" ==>
               (if p.accountField in credentials then credentials[p.accountField] else Null)
               == (if p.accountField in existing.value then existing.value[p.accountField] else Null)))
    ensures forall k :: k in p.serverManaged && k in saved ==> saved[k] == existing.value[k]
    // every other field is the request's
    ensures forall k :: k !in p.serverManaged ==> (k in saved <==> k in credentials)
    ensures forall k :: k !in p.serverManaged && k in saved ==> saved[k] == credentials[k]
  {
    var changed := AccountChanged(p, credentials, existing);
    var invalidated := if changed then p.accountScoped else {};
    saved := credentials;
    var i := 0;
    while i < |p.serverManaged|
      invariant 0 <= i <= |p.serverManaged|
      invariant saved == SettledUpTo(p.serverManaged[..i], credentials, invalidated, existing)
    {
      var field := p.serverManaged[i];
      assert Front(p.serverManaged[..i + 1]) == p.serverManaged[..i];
      saved := saved - {field};
      if field !in invalidated && existing.Some? && field in existing.value {
        saved := saved[field := existing.value[field]];
      }
      i := i + 1;
    }
    assert p.serverManaged[..i] == p.serverManaged;
    SettledIsKept(p.serverManaged, p, credentials, existing);
    AllSettled(p, credentials, existing);
    if existing.Some? {
      AccountsDiffer(p, credentials, existing.value);
    }
  }

  lemma AccountsDiffer(p: Provider, a: Fields, b: Fields)
    ensures AccountChanged(p, a, Some(b)) <==> !SameAccount(p, a, b)
  {
    assert Get(Obj(a), [p.accountField]) == Get(Lookup(a, p.accountField), []);
    assert Get(Obj(b), [p.accountField]) == Get(Lookup(b, p.accountField), []);
  }

  /** The loop's result after the given fields. */
  function SettledUpTo(fields: seq<string>, credentials: Fields, invalidated: set<string>,
                       existing: Option<Fields>): Fields
    decreases |fields|
  {
    if fields == [] then credentials
    else
      var field := Last(fields);
      var dropped := SettledUpTo(Front(fields), credentials, invalidated, existing) - {field};
      if field !in invalidated && existing.Some? && field in existing.value then dropped[field := existing.value[field]]
      else dropped
  }

  lemma {:induction false} SettledIsKept(fields: seq<string>, p: Provider, credentials: Fields,
                                         existing: Option<Fields>)
    requires forall field :: field in fields ==> field in p.serverManaged
    ensures SettledUpTo(fields, credentials, if AccountChanged(p, credentials, existing) then p.accountScoped else {},
                        existing)
            == Settled(credentials, Kept(p, credentials, existing), Names(fields))
    decreases |fields|
  {
    if fields != [] {
      SettledIsKept(Front(fields), p, credentials, existing);
      assert Names(fields) == Names(Front(fields)) + {Last(fields)};
      KeptMeans(p, credentials, existing, Last(fields));
      SettleOneMore(credentials, Kept(p, credentials, existing), Names(Front(fields)), Last(fields));
    }
  }

  lemma KeptMeans(p: Provider, credentials: Fields, existing: Option<Fields>, field: string)
    requires field in p.serverManaged
    ensures var kept := Kept(p, credentials, existing);
      && (field in kept <==>
            existing.Some? && field in existing.value
            && !(AccountChanged(p, credentials, existing) && field in p.accountScoped))
      && (field in kept ==> kept[field] == existing.value[field])
  {
  }

  lemma AllSettled(p: Provider, credentials: Fields, existing: Option<Fields>)
    ensures Settled(credentials, Kept(p, credentials, existing), Names(p.serverManaged))
            == Hooked(p, credentials, existing)
  {
  }

  function Names(keys: seq<string>): set<string> {
    set k | k in keys
  }

  /** The fields of `done` taken from `kept`, all others from `credentials`. */
  ghost function Settled(credentials: Fields, kept: Fields, done: set<string>): Fields {
    (credentials - done) + (map k | k in kept && k in done :: kept[k])
  }

  lemma SettleOneMore(credentials: Fields, kept: Fields, done: set<string>, field: string)
    ensures Settled(credentials, kept, done + {field})
            == if field in kept then (Settled(credentials, kept, done) - {field})[field := kept[field]]
               else Settled(credentials, kept, done) - {field}
  {
  }

  function Hooked(p: Provider, credentials: Fields, existing: Option<Fields>): Fields {
    (credentials - Names(p.serverManaged)) + Kept(p, credentials, existing)
  }

  // ---------- The round trip ----------

  lemma DropIsMaskedDrop(show: Rendering, m: Fields, f: Path, dropped: set<string>)
    ensures Get(Obj(m - dropped), f) == if f[0] in dropped then Null else Get(Obj(m), f)
    ensures MaskOne(show, m, f) - dropped == MaskOne(show, m - dropped, f)
  {
    if f[0] in dropped {
      assert forall rest :: Get(Null, rest) == Null;
    } else {
      assert Lookup(m - dropped, f[0]) == Lookup(m, f[0]);
      assert Get(Obj(m - dropped), f) == Get(Obj(m), f);
    }
  }

  lemma {:induction false} DropThroughMasks(show: Rendering, m: Fields, sensitive: seq<Path>, dropped: set<string>)
    ensures MaskAll(show, m, sensitive) - dropped == MaskAll(show, m - dropped, sensitive)
    decreases |sensitive|
  {
    if sensitive != [] {
      DropIsMaskedDrop(show, m, sensitive[0], dropped);
      DropThroughMasks(show, MaskOne(show, m, sensitive[0]), sensitive[1..], dropped);
    }
  }

  /** What the server stores when a client sends `request` for the row `stored`. */
  function Saved(show: Rendering, p: Provider, stored: Fields, request: Fields): Result<Fields, MaskError> {
    if Raises(show, request, stored, p.sensitive) then Err(UnmaskableSecret)
    else Ok(Hooked(p, PreserveAll(show, request, stored, p.sensitive), Some(stored)))
  }

  /** What it stores when a client shown `stored` sends it back unchanged. */
  function Resaved(show: Rendering, p: Provider, stored: Fields): Result<Fields, MaskError> {
    Saved(show, p, stored, Displayed(show, p, stored))
  }

  /** Every sensitive field the client is shown has a mask that the server recognises. */
  predicate MasksReturn(show: Rendering, p: Provider, stored: Fields) {
    forall i :: 0 <= i < |p.sensitive| && p.sensitive[i][0] !in p.serverManaged ==>
      MaskReturns(show, Get(Obj(stored), p.sensitive[i]))
  }

  lemma ShownField(show: Rendering, p: Provider, stored: Fields, i: nat)
    requires WellFormed(p) && i < |p.sensitive|
    ensures var v := Get(Obj(stored), p.sensitive[i]);
      Get(Obj(Displayed(show, p, stored)), p.sensitive[i])
      == if p.sensitive[i][0] in p.serverManaged then Null
         else if Truthy(v) then Str(MaskKey(Text(show, v))) else v
  {
    var dropped := Names(p.serverManaged);
    DropThroughMasks(show, stored, p.sensitive, dropped);
    DropIsMaskedDrop(show, stored, p.sensitive[i], dropped);
    EverySecretIsMasked(show, stored - dropped, p.sensitive, i);
  }

  /** If all masks return, everything but the server-managed fields is back before the hook. */
  lemma UnmaskedRequest(show: Rendering, p: Provider, stored: Fields)
    requires WellFormed(p) && MasksReturn(show, p, stored)
    ensures PreserveAll(show, Displayed(show, p, stored), stored, p.sensitive) == stored - Names(p.serverManaged)
    ensures !Raises(show, Displayed(show, p, stored), stored, p.sensitive)
  {
    var dropped := Names(p.serverManaged);
    var request := Displayed(show, p, stored);
    DropThroughMasks(show, stored, p.sensitive, dropped);
    forall i | 0 <= i < |p.sensitive|
      ensures MaskReturns(show, Get(Obj(stored - dropped), p.sensitive[i]))
      ensures Truthy(Get(Obj(stored - dropped), p.sensitive[i])) ==>
        Get(Obj(stored), p.sensitive[i]) == Get(Obj(stored - dropped), p.sensitive[i])
      ensures !RaisesAt(show, request, stored, p.sensitive[i])
    {
      DropIsMaskedDrop(show, stored, p.sensitive[i], dropped);
      ShownField(show, p, stored, i);
    }
    PreserveUndoesMasks(show, stored - dropped, stored, p.sensitive);
    RaisesExactlyOnUnmaskableSecret(show, request, stored, p.sensitive);
  }

  lemma HookLeavesOtherFields(p: Provider, credentials: Fields, existing: Option<Fields>, f: Path)
    requires f[0] !in p.serverManaged
    ensures Get(Obj(Hooked(p, credentials, existing)), f) == Get(Obj(credentials), f)
  {
    assert Lookup(Hooked(p, credentials, existing), f[0]) == Lookup(credentials, f[0]);
  }

  /** A shown secret whose mask does not return is lost: the save raises, or stores
      the mask in its place. */
  lemma UnreturnedMaskIsNotRestored(show: Rendering, p: Provider, stored: Fields, i: nat)
    requires WellFormed(p) && i < |p.sensitive| && p.sensitive[i][0] !in p.serverManaged
    requires !MaskReturns(show, Get(Obj(stored), p.sensitive[i]))
    ensures Resaved(show, p, stored) != Ok(stored)
  {
    var request, f := Displayed(show, p, stored), p.sensitive[i];
    var kept := Get(Obj(stored), f);
    ShownField(show, p, stored, i);
    if kept.Str? {
      StringMasksReturn(show, kept);
    }
    if MaskKey(Text(show, kept)) != "" && MaskOf(show, kept).None? {
      assert RaisesAt(show, request, stored, f);
      RaisesExactlyOnUnmaskableSecret(show, request, stored, p.sensitive);
    } else {
      PreserveKeepsNewSecrets(show, request, stored, p.sensitive, i);
      HookLeavesOtherFields(p, PreserveAll(show, request, stored, p.sensitive), Some(stored), f);
    }
  }

  /** The account id is itself hidden from the client, so a resubmission looks like a
      change of account. */
  predicate AccountIdIsHidden(p: Provider, stored: Fields) {
    p.accountField != "" && p.accountField in p.serverManaged && Lookup(stored, p.accountField) != Null
    && exists k :: k in stored && k in p.serverManaged && k in p.accountScoped
  }

  /** Display, resubmit, restore and save gives back the stored tree exactly if and
      only if every shown mask returns, as the masks of strings do, and the account id
      is not hidden beside account-scoped fields. */
  lemma ResavingUnchangedIsIdentity(show: Rendering, p: Provider, stored: Fields)
    requires WellFormed(p)
    ensures Resaved(show, p, stored) == Ok(stored)
            <==> MasksReturn(show, p, stored) && !AccountIdIsHidden(p, stored)
  {
    if MasksReturn(show, p, stored) {
      UnmaskedRequest(show, p, stored);
      HookedIsIdentityExactlyWhenAccountShows(p, stored);
    } else {
      var i :| 0 <= i < |p.sensitive| && p.sensitive[i][0] !in p.serverManaged
        && !MaskReturns(show, Get(Obj(stored), p.sensitive[i]));
      UnreturnedMaskIsNotRestored(show, p, stored, i);
    }
  }

  lemma HookedIsIdentityExactlyWhenAccountShows(p: Provider, stored: Fields)
    ensures Hooked(p, stored - Names(p.serverManaged), Some(stored)) == stored <==> !AccountIdIsHidden(p, stored)
  {
    var request := stored - Names(p.serverManaged);
    var saved := Hooked(p, request, Some(stored));
    assert AccountChanged(p, request, Some(stored)) <==>
      (p.accountField != "" && p.accountField in p.serverManaged && Lookup(stored, p.accountField) != Null);
    if AccountIdIsHidden(p, stored) {
      var k :| k in stored && k in p.serverManaged && k in p.accountScoped;
      assert k !in saved;
    } else {
      assert Kept(p, request, Some(stored)).Keys == stored.Keys * Names(p.serverManaged);
      assert saved.Keys == stored.Keys;
    }
  }

  /** For string secrets only the hidden account id is in the way. */
  lemma ResavingStringSecretsIsIdentity(show: Rendering, p: Provider, stored: Fields)
    requires WellFormed(p)
    requires forall i :: 0 <= i < |p.sensitive| ==>
      !Truthy(Get(Obj(stored), p.sensitive[i])) || Get(Obj(stored), p.sensitive[i]).Str?
    ensures Resaved(show, p, stored) == Ok(stored) <==> !AccountIdIsHidden(p, stored)
  {
    forall i | 0 <= i < |p.sensitive| ensures MaskReturns(show, Get(Obj(stored), p.sensitive[i])) {
      StringMasksReturn(show, Get(Obj(stored), p.sensitive[i]));
    }
    ResavingUnchangedIsIdentity(show, p, stored);
  }

  // ---------- Editing one field ----------

  /** Empty, or comparable with what is stored and not its mask. */
  predicate IsNewValue(show: Rendering, v: Json, stored: Json) {
    Truthy(v) ==> MaskOf(show, stored).Some? && !IsMaskOf(show, v, stored)
  }

  /** The path lies off every sensitive field, or is one that gets a new value. */
  ghost predicate Edits(show: Rendering, stored: Fields, sensitive: seq<Path>, q: Path, v: Json) {
    forall i :: 0 <= i < |sensitive| ==>
      Incomparable(sensitive[i], q) || (sensitive[i] == q && IsNewValue(show, v, Get(Obj(stored), q)))
  }

  lemma PreserveOneThroughEdit(show: Rendering, request: Fields, stored: Fields, f: Path, q: Path, v: Json)
    requires Incomparable(f, q) || (f == q && IsNewValue(show, v, Get(Obj(stored), q)))
    ensures Set(PreserveOne(show, request, stored, f), q, v) == PreserveOne(show, Set(request, q, v), stored, f)
    ensures RaisesAt(show, Set(request, q, v), stored, f) ==> RaisesAt(show, request, stored, f)
  {
    var kept := Get(Obj(stored), f);
    if f == q {
      GetAfterSet(request, q, v);
      SetAfterSet(request, q, kept, v);
    } else {
      GetIgnoresIncomparableSet(request, q, f, v);
      IncomparableSetsCommute(request, q, f, v, kept);
    }
  }

  /** Restoring masks leaves the edit alone. */
  lemma {:induction false} PreserveThroughEdit(show: Rendering, request: Fields, stored: Fields,
                                               sensitive: seq<Path>, q: Path, v: Json)
    requires Edits(show, stored, sensitive, q, v) && !Raises(show, request, stored, sensitive)
    ensures PreserveAll(show, Set(request, q, v), stored, sensitive)
            == Set(PreserveAll(show, request, stored, sensitive), q, v)
    ensures !Raises(show, Set(request, q, v), stored, sensitive)
    decreases |sensitive|
  {
    if sensitive != [] {
      PreserveOneThroughEdit(show, request, stored, sensitive[0], q, v);
      PreserveThroughEdit(show, PreserveOne(show, request, stored, sensitive[0]), stored, sensitive[1..], q, v);
    }
  }

  lemma SetOutsideDropped(m: Fields, q: Path, v: Json, dropped: set<string>)
    requires q[0] !in dropped
    ensures Set(m - dropped, q, v) == Set(m, q, v) - dropped
  {
    assert Child(m - dropped, q[0]) == Child(m, q[0]);
  }

  /** The server-managed fields that belong to the account. */
  function ScopedFields(p: Provider): set<string> {
    Names(p.serverManaged) * p.accountScoped
  }

  /** A request without server-managed fields, for a row that has them. */
  lemma HookOfEdit(p: Provider, stored: Fields, edited: Fields)
    requires p.accountField !in p.serverManaged
    requires forall k :: k in p.serverManaged ==> (k in edited <==> k in stored)
    requires forall k :: k in p.serverManaged && k in stored ==> edited[k] == stored[k]
    ensures Hooked(p, edited - Names(p.serverManaged), Some(stored))
            == if SameAccount(p, edited, stored) then edited else edited - ScopedFields(p)
  {
    var managed := Names(p.serverManaged);
    AccountsDiffer(p, edited, stored);
    assert Lookup(edited - managed, p.accountField) == Lookup(edited, p.accountField);
  }

  /** A client that is shown the stored tree, changes one field and sends the rest back
      as it is, changes exactly that field; unless it is the account id, whose change
      also drops the account's server-managed fields. */
  lemma EditingOneFieldSavesIt(show: Rendering, p: Provider, stored: Fields, q: Path, v: Json)
    requires WellFormed(p) && MasksReturn(show, p, stored) && Edits(show, stored, p.sensitive, q, v)
    requires q[0] !in p.serverManaged && p.accountField !in p.serverManaged
    ensures Saved(show, p, stored, Set(Displayed(show, p, stored), q, v))
            == Ok(if SameAccount(p, Set(stored, q, v), stored) then Set(stored, q, v)
                  else Set(stored, q, v) - ScopedFields(p))
  {
    UnmaskedRequest(show, p, stored);
    PreserveThroughEdit(show, Displayed(show, p, stored), stored, p.sensitive, q, v);
    SetOutsideDropped(stored, q, v, Names(p.serverManaged));
    HookOfEdit(p, stored, Set(stored, q, v));
  }
}
