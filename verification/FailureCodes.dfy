/**
 Failure classification: normalised failure codes, ownership and retry policy of
 the three classifiers, and the HTTP status and vendor code read from exceptions.
 */
module FailureCodes {
  import opened Common

  // ---------- Normal forms ----------

  predicate Alnum(c: char) {
    'a' <= c <= 'z' || '0' <= c <= '9'
  }

  /** Lower-case images of characters outside ASCII. */
  type CaseMap = map<char, string>

  function LowerChar(cases: CaseMap, c: char): string {
    if 'A' <= c <= 'Z' then [c - 'A' + 'a']
    else if c as int >= 128 && c in cases then cases[c]
    else [c]
  }

  function Lower(cases: CaseMap, s: string): string {
    if s == "" then "" else LowerChar(cases, s[0]) + Lower(cases, s[1..])
  }

  function DropOthers(s: string): (r: string)
    ensures |r| <= |s| && (r != "" ==> Alnum(r[0]))
  {
    if s == "" || Alnum(s[0]) then s else DropOthers(s[1..])
  }

  /** Each maximal run of other characters becomes one hyphen. */
  function Collapse(s: string): string
    decreases |s|
  {
    if s == "" then ""
    else if Alnum(s[0]) then [s[0]] + Collapse(s[1..])
    else "-" + Collapse(DropOthers(s[1..]))
  }

  function TrimHyphens(s: string): string
    decreases |s|
  {
    if s == "" then ""
    else if s[0] == '-' then TrimHyphens(s[1..])
    else if Last(s) == '-' then TrimHyphens(Front(s))
    else s
  }

  function Slug(cases: CaseMap, s: string): string {
    TrimHyphens(Collapse(Lower(cases, Strip(s))))
  }

  function NormalizeProvider(cases: CaseMap, provider: Option<string>): Option<string> {
    if provider.None? || Slug(cases, provider.value) == "" then None else Some(Slug(cases, provider.value))
  }

  function NormalizeCode(cases: CaseMap, code: string): string {
    if Slug(cases, code) == "" then "platform-unknown" else Slug(cases, code)
  }

  /** Only letters, digits and single hyphens. */
  predicate Collapsed(s: string) {
    && (forall i :: 0 <= i < |s| ==> Alnum(s[i]) || s[i] == '-')
    && (forall i :: 0 <= i < |s| - 1 && s[i] == '-' ==> s[i + 1] != '-')
  }

  predicate IsCode(s: string) {
    s != "" && Collapsed(s) && s[0] != '-' && Last(s) != '-'
  }

  predicate IsWord(s: string) {
    s != "" && forall i :: 0 <= i < |s| ==> Alnum(s[i])
  }

  ghost predicate AreWords(words: seq<string>) {
    words != [] && forall w :: w in words ==> IsWord(w)
  }

  function Join(words: seq<string>): string
    requires words != []
  {
    if |words| == 1 then words[0] else words[0] + "-" + Join(words[1..])
  }

  lemma CodesJoin(a: string, b: string)
    requires IsCode(a) && IsCode(b)
    ensures IsCode(a + "-" + b)
  {
    var s := a + "-" + b;
    forall i | 0 <= i < |s| - 1 && s[i] == '-' ensures s[i + 1] != '-' {
      if i < |a| {
        assert i != |a| - 1 && a[i + 1] != '-';
      } else if i > |a| {
        assert b[i - |a| - 1] == '-' && b[i - |a|] != '-';
      }
    }
  }

  lemma WordIsCode(w: string)
    requires IsWord(w)
    ensures IsCode(w)
  {
    assert Alnum(w[0]) && Alnum(Last(w));
  }

  lemma {:induction false} JoinedWordsAreCode(words: seq<string>)
    requires AreWords(words)
    ensures IsCode(Join(words))
    decreases |words|
  {
    WordIsCode(words[0]);
    if |words| > 1 {
      JoinedWordsAreCode(words[1..]);
      CodesJoin(words[0], Join(words[1..]));
    }
  }

  lemma {:induction false} CodeHasWords(s: string) returns (words: seq<string>)
    requires IsCode(s)
    ensures AreWords(words) && Join(words) == s
    decreases |s|
  {
    var k := 0;
    while k < |s| && s[k] != '-'
      invariant k <= |s| && forall i :: 0 <= i < k ==> s[i] != '-'
    {
      k := k + 1;
    }
    if k == |s| {
      words := [s];
    } else {
      assert 0 < k < |s| - 1;
      var rest := CodeHasWords(s[k + 1..]);
      words := [s[..k]] + rest;
      assert words[1..] == rest && s == s[..k] + "-" + s[k + 1..];
    }
  }

  /** A code is exactly one or more groups of [a-z0-9] joined by single hyphens. */
  lemma CodesAreHyphenJoinedWords(s: string)
    ensures IsCode(s) <==> exists words :: AreWords(words) && Join(words) == s
  {
    if IsCode(s) {
      var words := CodeHasWords(s);
    }
    if words :| AreWords(words) && Join(words) == s {
      JoinedWordsAreCode(words);
    }
  }

  lemma {:induction false} CollapseCollapses(s: string)
    ensures Collapsed(Collapse(s))
    ensures Collapse(s) != "" ==> s != "" && (Alnum(s[0]) ==> Collapse(s)[0] != '-')
    decreases |s|
  {
    if s != "" {
      var rest := if Alnum(s[0]) then s[1..] else DropOthers(s[1..]);
      CollapseCollapses(rest);
      var r := Collapse(rest);
      assert Collapse(s)[1..] == r;
      forall i | 0 <= i < |Collapse(s)| - 1 && Collapse(s)[i] == '-' ensures Collapse(s)[i + 1] != '-' {
        if i > 0 {
          assert r[i - 1] == '-' && r[i] != '-';
        }
      }
      forall i | 0 <= i < |Collapse(s)| ensures Alnum(Collapse(s)[i]) || Collapse(s)[i] == '-' {
        if i > 0 {
          assert Collapse(s)[i] == r[i - 1];
        }
      }
    }
  }

  lemma {:induction false} TrimmedIsCode(s: string)
    requires Collapsed(s)
    ensures TrimHyphens(s) == "" || IsCode(TrimHyphens(s))
    decreases |s|
  {
    if s != "" {
      if s[0] == '-' {
        TrimmedIsCode(s[1..]);
      } else if Last(s) == '-' {
        TrimmedIsCode(Front(s));
      }
    }
  }

  lemma DefaultIsCode()
    ensures IsCode("platform-unknown")
  {
    WordIsCode("platform");
    WordIsCode("unknown");
    CodesJoin("platform", "unknown");
    assert "platform-unknown" == "platform" + "-" + "unknown";
  }

  /** Every failure code is well formed, whatever text it was made from. */
  lemma NormalizedCodeIsCode(cases: CaseMap, code: string)
    ensures IsCode(NormalizeCode(cases, code))
    ensures NormalizeProvider(cases, Some(code)).Some? ==> IsCode(NormalizeProvider(cases, Some(code)).value)
  {
    DefaultIsCode();
    CollapseCollapses(Lower(cases, Strip(code)));
    TrimmedIsCode(Collapse(Lower(cases, Strip(code))));
  }

  lemma {:induction false} LowerKeepsCollapsed(cases: CaseMap, s: string)
    requires forall i :: 0 <= i < |s| ==> Alnum(s[i]) || s[i] == '-'
    ensures Lower(cases, s) == s
    decreases |s|
  {
    if s != "" {
      assert LowerChar(cases, s[0]) == [s[0]];
      LowerKeepsCollapsed(cases, s[1..]);
      assert s == [s[0]] + s[1..];
    }
  }

  lemma {:induction false} CollapseKeepsCollapsed(s: string)
    requires Collapsed(s)
    ensures Collapse(s) == s
    decreases |s|
  {
    if s != "" {
      if !Alnum(s[0]) && |s| > 1 {
        assert Alnum(s[1]);
        assert DropOthers(s[1..]) == s[1..];
      }
      CollapseKeepsCollapsed(s[1..]);
    }
  }

  /** The codes are exactly the texts that normalising leaves alone. */
  lemma CodesAreTheFixedPoints(cases: CaseMap, s: string)
    ensures NormalizeCode(cases, s) == s <==> IsCode(s)
    ensures IsCode(s) ==> NormalizeProvider(cases, Some(s)) == Some(s)
  {
    NormalizedCodeIsCode(cases, s);
    if IsCode(s) {
      assert Strip(s) == s;
      LowerKeepsCollapsed(cases, s);
      CollapseKeepsCollapsed(s);
      assert TrimHyphens(s) == s;
    }
  }

  lemma NormalizingIsIdempotent(cases: CaseMap, code: string, provider: Option<string>)
    ensures NormalizeCode(cases, NormalizeCode(cases, code)) == NormalizeCode(cases, code)
    ensures NormalizeProvider(cases, NormalizeProvider(cases, provider)) == NormalizeProvider(cases, provider)
  {
    NormalizedCodeIsCode(cases, code);
    CodesAreTheFixedPoints(cases, NormalizeCode(cases, code));
    if provider.Some? {
      NormalizedCodeIsCode(cases, provider.value);
      if NormalizeProvider(cases, provider).Some? {
        CodesAreTheFixedPoints(cases, NormalizeProvider(cases, provider).value);
      }
    }
  }

  // ---------- What a normalised text keeps ----------

  /** The maximal groups of letters and digits of a text. */
  function WordsOf(s: string): seq<string> {
    if s == "" then []
    else if !Alnum(s[0]) then WordsOf(s[1..])
    else if |s| > 1 && Alnum(s[1]) then
      var rest := WordsOf(s[1..]);
      if rest == [] then [s] else [[s[0]] + rest[0]] + rest[1..]
    else [[s[0]]] + WordsOf(s[1..])
  }

  lemma {:induction false} WordsAfterOthers(s: string)
    ensures WordsOf(DropOthers(s)) == WordsOf(s)
    decreases |s|
  {
    if s != "" && !Alnum(s[0]) {
      WordsAfterOthers(s[1..]);
    }
  }

  lemma {:induction false} CollapseKeepsWords(s: string)
    ensures WordsOf(Collapse(s)) == WordsOf(s)
    ensures s != "" ==> Collapse(s) != "" && (Alnum(Collapse(s)[0]) <==> Alnum(s[0]))
    decreases |s|
  {
    if s != "" {
      var rest := if Alnum(s[0]) then s[1..] else DropOthers(s[1..]);
      CollapseKeepsWords(rest);
      assert Collapse(s)[1..] == Collapse(rest);
      if !Alnum(s[0]) {
        WordsAfterOthers(s[1..]);
      }
    }
  }

  lemma {:induction false} TrailingOtherIsNoWord(s: string, c: char)
    requires !Alnum(c)
    ensures WordsOf(s + [c]) == WordsOf(s)
    decreases |s|
  {
    if s == "" {
      assert (s + [c])[1..] == "";
    } else {
      assert (s + [c])[1..] == s[1..] + [c];
      TrailingOtherIsNoWord(s[1..], c);
    }
  }

  lemma {:induction false} TrimKeepsWords(s: string)
    ensures WordsOf(TrimHyphens(s)) == WordsOf(s)
    decreases |s|
  {
    if s != "" {
      if s[0] == '-' {
        TrimKeepsWords(s[1..]);
      } else if Last(s) == '-' {
        TrimKeepsWords(Front(s));
        TrailingOtherIsNoWord(Front(s), '-');
        assert s == Front(s) + ['-'];
      }
    }
  }

  lemma {:induction false} CodeIsItsWords(s: string)
    requires IsCode(s)
    ensures WordsOf(s) != [] && Join(WordsOf(s)) == s
    decreases |s|
  {
    if |s| > 1 && Alnum(s[1]) {
      assert IsCode(s[1..]);
      CodeIsItsWords(s[1..]);
      JoinLongerWord(s[0], WordsOf(s[1..]));
    } else if |s| > 1 {
      assert s[1] == '-' && |s| > 2 && s[2] != '-';
      assert IsCode(s[2..]) && s[1..][1..] == s[2..];
      CodeIsItsWords(s[2..]);
      assert s == [s[0]] + "-" + s[2..];
      assert WordsOf(s) == [[s[0]]] + WordsOf(s[2..]);
    } else {
      assert s[1..] == "" && s == [s[0]];
    }
  }

  lemma JoinLongerWord(c: char, words: seq<string>)
    requires words != []
    ensures Join([[c] + words[0]] + words[1..]) == [c] + Join(words)
  {
    assert ([[c] + words[0]] + words[1..])[1..] == words[1..];
  }

  lemma {:induction false} LowerOfConcat(cases: CaseMap, s: string, c: char)
    ensures Lower(cases, s + [c]) == Lower(cases, s) + LowerChar(cases, c)
    decreases |s|
  {
    if s == "" {
      assert s + [c] == [c] && [c][1..] == "";
    } else {
      assert (s + [c])[1..] == s[1..] + [c];
      LowerOfConcat(cases, s[1..], c);
    }
  }

  lemma LeadingSpaceIsNoWord(cases: CaseMap, s: string)
    requires s != "" && IsSpace(s[0])
    ensures WordsOf(Lower(cases, s)) == WordsOf(Lower(cases, s[1..]))
  {
    assert Lower(cases, s) == [s[0]] + Lower(cases, s[1..]);
    assert Lower(cases, s)[1..] == Lower(cases, s[1..]);
  }

  lemma TrailingSpaceIsNoWord(cases: CaseMap, s: string)
    requires s != "" && IsSpace(Last(s))
    ensures WordsOf(Lower(cases, s)) == WordsOf(Lower(cases, Front(s)))
  {
    assert s == Front(s) + [Last(s)];
    LowerOfConcat(cases, Front(s), Last(s));
    TrailingOtherIsNoWord(Lower(cases, Front(s)), Last(s));
  }

  lemma {:induction false} StripKeepsWords(cases: CaseMap, s: string)
    ensures WordsOf(Lower(cases, Strip(s))) == WordsOf(Lower(cases, s))
    decreases |s|
  {
    if s != "" {
      if IsSpace(s[0]) {
        StripKeepsWords(cases, s[1..]);
        LeadingSpaceIsNoWord(cases, s);
      } else if IsSpace(Last(s)) {
        StripKeepsWords(cases, Front(s));
        TrailingSpaceIsNoWord(cases, s);
      }
    }
  }

  /** A normalised text is the lower-cased text's groups of letters and digits, all of
      them and in order, joined by hyphens. */
  lemma NormalizingJoinsWords(cases: CaseMap, text: string)
    ensures var words := WordsOf(Lower(cases, text));
      && NormalizeCode(cases, text) == (if words == [] then "platform-unknown" else Join(words))
      && NormalizeProvider(cases, Some(text)) == (if words == [] then None else Some(Join(words)))
  {
    var collapsed := Collapse(Lower(cases, Strip(text)));
    var slug := TrimHyphens(collapsed);
    StripKeepsWords(cases, text);
    CollapseKeepsWords(Lower(cases, Strip(text)));
    TrimKeepsWords(collapsed);
    CollapseCollapses(Lower(cases, Strip(text)));
    TrimmedIsCode(collapsed);
    if slug != "" {
      CodeIsItsWords(slug);
    }
  }

  /** Lower-casing moves A-Z to a-z and keeps every other ASCII character. */
  lemma {:induction false} LowerOfAscii(cases: CaseMap, s: string)
    requires forall i :: 0 <= i < |s| ==> s[i] as int < 128
    ensures |Lower(cases, s)| == |s|
    ensures forall i :: 0 <= i < |s| ==>
      Lower(cases, s)[i] as int == s[i] as int + if 65 <= s[i] as int <= 90 then 32 else 0
    decreases |s|
  {
    if s != "" {
      LowerOfAscii(cases, s[1..]);
      assert Lower(cases, s) == LowerChar(cases, s[0]) + Lower(cases, s[1..]);
    }
  }

  // ---------- Failures ----------

  datatype Source = LLM | TTS | STT | Telephony | Transport | Webhook | Integration | Tool | KnowledgeBase | Platform

  datatype ErrorType = ConfigError | QuotaError | ProviderError | SystemError

  datatype Owner = User | Operator

  /** An owner as callers may state it: not at all, as a value, or by name. */
  datatype OwnerArgument = Unstated | Stated(owner: Owner) | Named(name: string)

  datatype InvalidOwner = InvalidOwner(name: string)

  /** Messages and context are not part of this model. */
  datatype Failure = Failure(
    source: Source, kind: ErrorType, code: string, owner: OwnerArgument, provider: Option<string>,
    providerErrorCode: Option<string>, retryable: Option<bool>)

  function ResolveErrorOwner(kind: ErrorType, owner: OwnerArgument): Result<Owner, InvalidOwner> {
    if kind == ConfigError || kind == QuotaError then Ok(User)
    else match owner
      case Unstated => Ok(Operator)
      case Stated(o) => Ok(o)
      case Named(name) =>
        if name == "user" then Ok(User) else if name == "operator" then Ok(Operator) else Err(InvalidOwner(name))
  }

  /** A failure as its fields stand after construction. */
  function Initialized(cases: CaseMap, f: Failure): Result<Failure, InvalidOwner> {
    var owner := ResolveErrorOwner(f.kind, f.owner);
    if owner.Err? then Err(owner.error)
    else
      Ok(f.(owner := Stated(owner.value), provider := NormalizeProvider(cases, f.provider),
            providerErrorCode := NormalizeProvider(cases, f.providerErrorCode), code := NormalizeCode(cases, f.code)))
  }

  class DograhFailure {
    var source: Source
    var kind: ErrorType
    var code: string
    var owner: OwnerArgument
    var provider: Option<string>
    var providerErrorCode: Option<string>
    var retryable: Option<bool>

    function Value(): Failure
      reads this
    {
      Failure(source, kind, code, owner, provider, providerErrorCode, retryable)
    }

    constructor (f: Failure)
      ensures Value() == f
    {
      source, kind, code, owner := f.source, f.kind, f.code, f.owner;
      provider, providerErrorCode, retryable := f.provider, f.providerErrorCode, f.retryable;
    }

    /** An invalid owner raises before any other field is normalised. */
    method PostInit(cases: CaseMap) returns (r: Result<(), InvalidOwner>)
      modifies this
      ensures match Initialized(cases, old(Value()))
        case Ok(f) => r.Ok? && Value() == f
        case Err(e) => r == Err(e) && Value() == old(Value())
    {
      var resolved := ResolveErrorOwner(kind, owner);
      if resolved.Err? {
        return Err(resolved.error);
      }
      owner := Stated(resolved.value);
      provider := NormalizeProvider(cases, provider);
      providerErrorCode := NormalizeProvider(cases, providerErrorCode);
      code := NormalizeCode(cases, code);
      return Ok(());
    }
  }

  /** Constructing a failure from a constructed one changes nothing. */
  lemma InitializingIsIdempotent(cases: CaseMap, f: Failure)
    requires Initialized(cases, f).Ok?
    ensures Initialized(cases, Initialized(cases, f).value) == Initialized(cases, f)
  {
    NormalizingIsIdempotent(cases, f.code, f.provider);
    NormalizingIsIdempotent(cases, f.code, f.providerErrorCode);
  }

  // ---------- The classifiers ----------

  function SourceName(source: Source): string {
    match source
    case LLM => "llm"
    case TTS => "tts"
    case STT => "stt"
    case Telephony => "telephony"
    case Transport => "transport"
    case Webhook => "webhook"
    case Integration => "integration"
    case Tool => "tool"
    case KnowledgeBase => "knowledge-base"
    case Platform => "platform"
  }

  function Digits(n: nat): string {
    if n < 10 then [('0' as int + n) as char] else Digits(n / 10) + [('0' as int + n % 10) as char]
  }

  function Decimal(n: int): string {
    if n < 0 then "-" + Digits(-n) else Digits(n)
  }

  function TypeForHttpStatus(status: int): (ErrorType, Option<bool>) {
    if status == 401 || status == 403 then (ConfigError, Some(false))
    else if status == 402 || status == 429 then (QuotaError, Some(false))
    else if status == 408 || 500 <= status <= 599 then (ProviderError, Some(true))
    else if 400 <= status <= 499 then (ConfigError, Some(false))
    else if 300 <= status <= 399 then (ConfigError, Some(false))
    else (SystemError, None)
  }

  /** What every classifier is told about where the failure was seen. */
  datatype Seam = Seam(source: Source, provider: Option<string>, owner: OwnerArgument)

  predicate IsDograh(cases: CaseMap, seam: Seam) {
    NormalizeProvider(cases, seam.provider) == Some("dograh")
  }

  function CodePrefix(cases: CaseMap, seam: Seam): string {
    var provider := NormalizeProvider(cases, seam.provider);
    if provider.Some? then provider.value else SourceName(seam.source)
  }

  function Classified(cases: CaseMap, seam: Seam, kind: ErrorType, detail: string, owner: OwnerArgument,
                      vendorCode: Option<string>, retryable: Option<bool>): Result<Failure, InvalidOwner> {
    Initialized(cases, Failure(
      seam.source, kind, CodePrefix(cases, seam) + "-" + detail, owner,
      NormalizeProvider(cases, seam.provider), vendorCode, retryable))
  }

  function ClassifyHttpResponse(cases: CaseMap, seam: Seam, status: int, vendorCode: Option<string>)
    : Result<Failure, InvalidOwner>
  {
    var code := NormalizeProvider(cases, vendorCode);
    if IsDograh(cases, seam) then
      if status == 402 then
        Classified(cases, seam, QuotaError, "insufficient-credits", Stated(User), code, Some(false))
      else
        Classified(cases, seam, SystemError, Decimal(status), Stated(Operator), code, Some(500 <= status <= 599))
    else
      var (kind, retryable) := TypeForHttpStatus(status);
      Classified(cases, seam, kind, Decimal(status), seam.owner, code, retryable)
  }

  function Normalized(cases: CaseMap, seam: Seam): Seam {
    seam.(provider := NormalizeProvider(cases, seam.provider))
  }

  /** `found` is the three-digit status the redacted message names, if any. */
  function ClassifyMessage(cases: CaseMap, seam: Seam, found: Option<nat>): Result<Failure, InvalidOwner> {
    if IsDograh(cases, seam) then Classified(cases, seam, SystemError, "unknown", Stated(Operator), None, None)
    else if found.Some? then ClassifyHttpResponse(cases, Normalized(cases, seam), found.value, None)
    else Classified(cases, seam, SystemError, "unknown", seam.owner, None, None)
  }

  /** An attribute of an exception. `Member` is an object with a `value`, such as a
      member of a plain Enum; a member of an IntEnum is an Int. */
  datatype Attribute = Missing | Bool(b: bool) | Int(n: int) | Str(s: string) | Member(inner: Attribute) | Other

  /** The exception's nearest class among those the classifier asks about; TimeoutError
      and ConnectionError are both kinds of OSError. */
  datatype ExceptionClass = HttpxTimeout | HttpxConnect | ConnectionClass | TimeoutClass | OtherOS | Unrelated

  /** `identity` is the module and class name in lower case. */
  datatype Exception = Exception(
    statusCode: Attribute, code: Attribute, status: Attribute, responseStatus: Attribute, errorCode: Attribute,
    class_: ExceptionClass, identity: string)

  function ValidHttpStatus(a: Attribute): Option<int> {
    if a.Int? && 100 <= a.n <= 599 then Some(a.n) else None
  }

  predicate IsStatus(a: Attribute) {
    a.Int? && a.n >= 100 && a.n < 600
  }

  method ExtractHttpStatus(e: Exception) returns (status: Option<int>)
    ensures status == HttpStatus(e)
    // the first of the four that is an integer from 100 to 599
    ensures var found := [e.statusCode, e.code, e.status, e.responseStatus];
      match status
      case Some(n) =>
        100 <= n <= 599
        && exists k :: 0 <= k < 4 && found[k] == Int(n) && forall j :: 0 <= j < k ==> !IsStatus(found[j])
      case None => forall j :: 0 <= j < 4 ==> !IsStatus(found[j])
  {
    var attributes := [e.statusCode, e.code, e.status];
    assert attributes[0] == e.statusCode && attributes[1] == e.code && attributes[2] == e.status;
    var i := 0;
    while i < |attributes|
      invariant 0 <= i <= |attributes|
      invariant forall k :: 0 <= k < i ==> ValidHttpStatus(attributes[k]).None?
    {
      var valid := ValidHttpStatus(attributes[i]);
      if valid.Some? {
        assert [e.statusCode, e.code, e.status, e.responseStatus][i] == attributes[i] == Int(valid.value);
        return valid;
      }
      i := i + 1;
    }
    assert [e.statusCode, e.code, e.status, e.responseStatus][3] == e.responseStatus;
    assert ValidHttpStatus(attributes[0]).None? && ValidHttpStatus(attributes[1]).None?;
    assert ValidHttpStatus(attributes[2]).None?;
    return ValidHttpStatus(e.responseStatus);
  }

  /** The first valid status, in the order the attributes are trusted. */
  function HttpStatus(e: Exception): Option<int> {
    if ValidHttpStatus(e.statusCode).Some? then ValidHttpStatus(e.statusCode)
    else if ValidHttpStatus(e.code).Some? then ValidHttpStatus(e.code)
    else if ValidHttpStatus(e.status).Some? then ValidHttpStatus(e.status)
    else ValidHttpStatus(e.responseStatus)
  }

  predicate AllDigits(s: string) {
    s != "" && forall i :: 0 <= i < |s| ==> '0' <= s[i] <= '9'
  }

  function Number(s: string): nat
    requires AllDigits(s)
  {
    (if |s| == 1 then 0 else Number(Front(s)) * 10) + (Last(s) as int - '0' as int)
  }

  /** The text of a vendor code. Booleans are refused as they are, but not as the
      value of a member. */
  function RawVendorCode(a: Attribute): Option<string> {
    match a
    case Int(n) => Some(Decimal(n))
    case Str(s) => Some(s)
    case Member(Int(n)) => Some(Decimal(n))
    case Member(Str(s)) => Some(s)
    case Member(Bool(b)) => Some(if b then "True" else "False")
    case _ => None
  }

  /** The vendor code one attribute yields, if it is usable. */
  function VendorCode(cases: CaseMap, a: Attribute, status: Option<int>): Option<string> {
    if RawVendorCode(a).None? then None
    else
      var raw := Strip(RawVendorCode(a).value);
      if raw == "" || |raw| > 128 then None
      else if AllDigits(raw) && status == Some(Number(raw)) then None
      else
        var slug := TrimHyphens(Collapse(Lower(cases, raw)));
        if slug == "" then None else Some(slug)
  }

  function ProviderErrorCode(cases: CaseMap, e: Exception, status: Option<int>): Option<string> {
    if VendorCode(cases, e.errorCode, status).Some? then VendorCode(cases, e.errorCode, status)
    else VendorCode(cases, e.code, status)
  }

  predicate Has(text: string, part: string) {
    part <= text || (text != "" && Has(text[1..], part))
  }

  predicate IsTimeout(e: Exception) {
    e.class_ == HttpxTimeout || e.class_ == TimeoutClass
  }

  /** `closing` lists what a websocket exception's identity must also contain. */
  predicate Transient(e: Exception, closing: seq<string>) {
    e.class_ != Unrelated || (Has(e.identity, "websocket") && exists m :: m in closing && Has(e.identity, m))
  }

  function DetailCode(e: Exception, transient: bool): string {
    if IsTimeout(e) then "timeout" else if transient then "connection" else "unknown"
  }

  function ClassifyException(cases: CaseMap, seam: Seam, e: Exception, found: Option<nat>)
    : Result<Failure, InvalidOwner>
  {
    var status := HttpStatus(e);
    var code := ProviderErrorCode(cases, e, status);
    if status.Some? then ClassifyHttpResponse(cases, seam, status.value, code)
    else if IsDograh(cases, seam) then
      var transient := Transient(e, ["closed"]);
      Classified(cases, seam, SystemError, DetailCode(e, transient), Stated(Operator), code,
                 if transient then Some(true) else None)
    else if found.Some? then ClassifyHttpResponse(cases, Normalized(cases, seam), found.value, None)
    else
      var transient := Transient(e, ["closed", "connection"]);
      Classified(cases, seam, if transient then ProviderError else SystemError, DetailCode(e, transient),
                 seam.owner, code, if transient then Some(true) else None)
  }

  /** Every way the three classifiers can be entered. */
  datatype Observation =
    | Response(status: int, vendorCode: Option<string>)
    | Message(found: Option<nat>)
    | Raised(e: Exception, found: Option<nat>)

  function Classify(cases: CaseMap, seam: Seam, o: Observation): Result<Failure, InvalidOwner> {
    match o
    case Response(status, code) => ClassifyHttpResponse(cases, seam, status, code)
    case Message(found) => ClassifyMessage(cases, seam, found)
    case Raised(e, found) => ClassifyException(cases, seam, e, found)
  }

  /** The status the classification rests on, if any. */
  function StatusOf(cases: CaseMap, seam: Seam, o: Observation): Option<int> {
    match o
    case Response(status, _) => Some(status)
    case Message(found) => if IsDograh(cases, seam) || found.None? then None else Some(found.value)
    case Raised(e, found) =>
      if HttpStatus(e).Some? then HttpStatus(e)
      else if IsDograh(cases, seam) || found.None? then None
      else Some(found.value)
  }

  // ---------- What holds on every path ----------

  /** Normalising the provider beforehand, as two paths do, makes no difference. */
  lemma NormalizedSeamIsEnough(cases: CaseMap, seam: Seam, status: int, code: Option<string>)
    ensures ClassifyHttpResponse(cases, Normalized(cases, seam), status, code)
            == ClassifyHttpResponse(cases, seam, status, code)
  {
    NormalizingIsIdempotent(cases, "", seam.provider);
  }

  predicate TransientFailure(cases: CaseMap, seam: Seam, o: Observation) {
    o.Raised? && Transient(o.e, if IsDograh(cases, seam) then ["closed"] else ["closed", "connection"])
  }

  /** What stands after the provider in a classifier's code. */
  function Detail(cases: CaseMap, seam: Seam, o: Observation): string {
    var status := StatusOf(cases, seam, o);
    if status.Some? then
      if IsDograh(cases, seam) && status.value == 402 then "insufficient-credits" else Decimal(status.value)
    else if o.Raised? then DetailCode(o.e, TransientFailure(cases, seam, o))
    else "unknown"
  }

  datatype Verdict = Verdict(kind: ErrorType, owner: OwnerArgument, retryable: Option<bool>)

  /** The policy in one table: it depends on whether the service is Dograh's, on the
      owner the seam states, on the HTTP status and on whether the failure is
      transient, and on nothing else. */
  function Policy(dograh: bool, owner: OwnerArgument, status: Option<int>, transient: bool): Verdict {
    match status
    case Some(402) => Verdict(QuotaError, if dograh then Stated(User) else owner, Some(false))
    case Some(n) =>
      if dograh then Verdict(SystemError, Stated(Operator), Some(500 <= n <= 599))
      else Verdict(TypeForHttpStatus(n).0, owner, TypeForHttpStatus(n).1)
    case None =>
      Verdict(if transient && !dograh then ProviderError else SystemError,
              if dograh then Stated(Operator) else owner,
              if transient then Some(true) else None)
  }

  function VerdictOn(cases: CaseMap, seam: Seam, o: Observation): Verdict {
    Policy(IsDograh(cases, seam), seam.owner, StatusOf(cases, seam, o), TransientFailure(cases, seam, o))
  }

  /** The vendor code each path passes on; a status found in the text drops it. */
  function VendorCodeOf(cases: CaseMap, seam: Seam, o: Observation): Option<string> {
    match o
    case Response(_, code) => NormalizeProvider(cases, code)
    case Message(_) => None
    case Raised(e, found) =>
      var code := ProviderErrorCode(cases, e, HttpStatus(e));
      if HttpStatus(e).Some? then NormalizeProvider(cases, code)
      else if IsDograh(cases, seam) || found.None? then code
      else None
  }

  lemma ResponseFollowsPolicy(cases: CaseMap, seam: Seam, status: int, code: Option<string>)
    ensures var v := Policy(IsDograh(cases, seam), seam.owner, Some(status), false);
      ClassifyHttpResponse(cases, seam, status, code)
      == Classified(cases, seam, v.kind,
                    if IsDograh(cases, seam) && status == 402 then "insufficient-credits" else Decimal(status),
                    v.owner, NormalizeProvider(cases, code), v.retryable)
  {
  }

  /** All three classifiers follow the same policy on every path. */
  lemma ClassifiersFollowPolicy(cases: CaseMap, seam: Seam, o: Observation)
    ensures var v := VerdictOn(cases, seam, o);
      Classify(cases, seam, o)
      == Classified(cases, seam, v.kind, Detail(cases, seam, o), v.owner, VendorCodeOf(cases, seam, o), v.retryable)
  {
    match o
    case Response(status, code) => ResponseFollowsPolicy(cases, seam, status, code);
    case Message(found) =>
      if found.Some? {
        NormalizedSeamIsEnough(cases, seam, found.value, None);
        ResponseFollowsPolicy(cases, seam, found.value, None);
      }
    case Raised(e, found) =>
      if HttpStatus(e).Some? {
        ResponseFollowsPolicy(cases, seam, HttpStatus(e).value, ProviderErrorCode(cases, e, HttpStatus(e)));
      } else if found.Some? {
        NormalizedSeamIsEnough(cases, seam, found.value, None);
        ResponseFollowsPolicy(cases, seam, found.value, None);
      }
  }

  lemma VerdictIsKept(cases: CaseMap, seam: Seam, o: Observation)
    requires Classify(cases, seam, o).Ok?
    ensures var f, v := Classify(cases, seam, o).value, VerdictOn(cases, seam, o);
      f.kind == v.kind && f.retryable == v.retryable && ResolveErrorOwner(v.kind, v.owner).Ok?
      && f.owner == Stated(ResolveErrorOwner(v.kind, v.owner).value)
  {
    ClassifiersFollowPolicy(cases, seam, o);
  }

  lemma PolicyRetries(owner: OwnerArgument, status: Option<int>, transient: bool)
    ensures var v := Policy(false, owner, status, transient);
      && (v.retryable == Some(true) <==> v.kind == ProviderError)
      && (v.retryable == None <==> v.kind == SystemError)
  {
  }

  /** The results are the same but for the vendor code they carry. */
  predicate SameButForVendorCode(a: Result<Failure, InvalidOwner>, b: Result<Failure, InvalidOwner>) {
    if a.Ok? then b.Ok? && a.value == b.value.(providerErrorCode := a.value.providerErrorCode) else a == b
  }

  lemma VendorCodeIsCarried(cases: CaseMap, seam: Seam, kind: ErrorType, detail: string, owner: OwnerArgument,
                            x: Option<string>, y: Option<string>, retryable: Option<bool>)
    ensures SameButForVendorCode(Classified(cases, seam, kind, detail, owner, x, retryable),
                                 Classified(cases, seam, kind, detail, owner, y, retryable))
  {
  }

  /** Observations that lead to the same verdict and detail are classified alike. */
  lemma SameVerdictSameFailure(cases: CaseMap, seam: Seam, o: Observation, o': Observation)
    requires VerdictOn(cases, seam, o) == VerdictOn(cases, seam, o')
    requires Detail(cases, seam, o) == Detail(cases, seam, o')
    ensures SameButForVendorCode(Classify(cases, seam, o), Classify(cases, seam, o'))
  {
    var v := VerdictOn(cases, seam, o);
    ClassifiersFollowPolicy(cases, seam, o);
    ClassifiersFollowPolicy(cases, seam, o');
    VendorCodeIsCarried(cases, seam, v.kind, Detail(cases, seam, o), v.owner,
                        VendorCodeOf(cases, seam, o), VendorCodeOf(cases, seam, o'), v.retryable);
  }

  lemma PolicyOnUserErrors(dograh: bool, owner: OwnerArgument, status: Option<int>, transient: bool)
    ensures var v := Policy(dograh, owner, status, transient);
      v.kind == ConfigError || v.kind == QuotaError ==>
        v.retryable == Some(false) && ResolveErrorOwner(v.kind, v.owner) == Ok(User)
  {
  }

  /** Configuration and quota errors are the user's and not retryable. */
  lemma UserErrorsAreNotRetryable(cases: CaseMap, seam: Seam, o: Observation)
    ensures Classify(cases, seam, o).Ok? ==>
      var f := Classify(cases, seam, o).value;
      f.kind == ConfigError || f.kind == QuotaError ==> f.owner == Stated(User) && f.retryable == Some(false)
  {
    if Classify(cases, seam, o).Ok? {
      VerdictIsKept(cases, seam, o);
    }
    PolicyOnUserErrors(IsDograh(cases, seam), seam.owner, StatusOf(cases, seam, o), TransientFailure(cases, seam, o));
  }

  /** Away from Dograh's own services a failure is retryable exactly when it is the
      provider's, and no other failure claims either way unless it is the user's. */
  lemma RetryableExactlyWhenProvider(cases: CaseMap, seam: Seam, o: Observation)
    requires !IsDograh(cases, seam) && Classify(cases, seam, o).Ok?
    ensures var f := Classify(cases, seam, o).value;
      && (f.retryable == Some(true) <==> f.kind == ProviderError)
      && (f.retryable == None <==> f.kind == SystemError)
  {
    VerdictIsKept(cases, seam, o);
    PolicyRetries(seam.owner, StatusOf(cases, seam, o), TransientFailure(cases, seam, o));
  }

  /** Dograh's own services: only insufficient credits (402) are the user's, whoever
      the caller says owns the failure, and nothing is blamed on a provider. */
  lemma DograhIsUserOwnedExactlyFor402(cases: CaseMap, seam: Seam, o: Observation)
    requires IsDograh(cases, seam)
    ensures Classify(cases, seam, o).Ok?
    ensures var f := Classify(cases, seam, o).value;
      var status := StatusOf(cases, seam, o);
      && (f.owner == Stated(User) <==> status == Some(402))
      && (f.kind == QuotaError <==> status == Some(402))
      && (f.kind == SystemError <==> status != Some(402))
      && (status.Some? ==> f.retryable == Some(500 <= status.value <= 599))
  {
    ClassifiersFollowPolicy(cases, seam, o);
  }

  /** A classifier raises exactly when the seam is not Dograh's, names no valid owner,
      and the failure's type leaves the owner to the seam. */
  lemma RaisesExactlyOnUnusableOwner(cases: CaseMap, seam: Seam, o: Observation)
    ensures Classify(cases, seam, o).Err? <==>
      && !IsDograh(cases, seam)
      && seam.owner.Named? && seam.owner.name != "user" && seam.owner.name != "operator"
      && VerdictOn(cases, seam, o).kind != ConfigError && VerdictOn(cases, seam, o).kind != QuotaError
  {
    ClassifiersFollowPolicy(cases, seam, o);
  }

  lemma VendorCodeIsNotRead(cases: CaseMap, seam: Seam, e: Exception, e': Exception, found: Option<nat>)
    requires HttpStatus(e') == HttpStatus(e) && e'.class_ == e.class_ && e'.identity == e.identity
    ensures VerdictOn(cases, seam, Raised(e', found)) == VerdictOn(cases, seam, Raised(e, found))
    ensures Detail(cases, seam, Raised(e', found)) == Detail(cases, seam, Raised(e, found))
  {
    assert forall closing :: Transient(e', closing) == Transient(e, closing);
    assert forall transient :: DetailCode(e', transient) == DetailCode(e, transient);
  }

  /** A vendor's error_code never changes what is concluded: two exceptions that
      differ only there are classified alike but for the code they carry. */
  lemma VendorCodeNeverDecides(cases: CaseMap, seam: Seam, e: Exception, other: Attribute, found: Option<nat>)
    ensures SameButForVendorCode(Classify(cases, seam, Raised(e, found)),
                                 Classify(cases, seam, Raised(e.(errorCode := other), found)))
  {
    VendorCodeIsNotRead(cases, seam, e, e.(errorCode := other), found);
    SameVerdictSameFailure(cases, seam, Raised(e, found), Raised(e.(errorCode := other), found));
  }

  // ---------- What decides the type and the owner ----------

  /** The status an observation brings: a response's own, else one of the exception's,
      else, away from Dograh's services, one its message names. */
  lemma StatusSeen(cases: CaseMap, seam: Seam, e: Exception, found: Option<nat>, n: int, code: Option<string>)
    ensures StatusOf(cases, seam, Response(n, code)) == Some(n)
    ensures HttpStatus(e).Some? ==> StatusOf(cases, seam, Raised(e, found)) == HttpStatus(e)
    ensures IsDograh(cases, seam) ==>
      StatusOf(cases, seam, Message(found)) == None
      && (HttpStatus(e).None? ==> StatusOf(cases, seam, Raised(e, found)) == None)
    ensures !IsDograh(cases, seam) ==>
      StatusOf(cases, seam, Message(None)) == None && StatusOf(cases, seam, Raised(e, None)) == HttpStatus(e)
    ensures !IsDograh(cases, seam) && found.Some? ==>
      StatusOf(cases, seam, Message(found)) == Some(found.value as int)
      && (HttpStatus(e).None? ==> StatusOf(cases, seam, Raised(e, found)) == Some(found.value as int))
  {
  }

  /** Away from Dograh's services the status decides the type, and so whether to retry. */
  lemma StatusDecidesType(cases: CaseMap, seam: Seam, o: Observation, n: int)
    requires !IsDograh(cases, seam) && StatusOf(cases, seam, o) == Some(n) && Classify(cases, seam, o).Ok?
    ensures var f := Classify(cases, seam, o).value;
      && (f.kind == QuotaError <==> n == 402 || n == 429)
      && (f.kind == ProviderError <==> n == 408 || 500 <= n < 600)
      && (f.kind == ConfigError <==> 300 <= n < 500 && n != 402 && n != 408 && n != 429)
      && (f.kind == SystemError <==> n < 300 || 600 <= n)
  {
    VerdictIsKept(cases, seam, o);
  }

  /** Without a status only transient exceptions are the provider's: network errors by
      their class, and websocket closings and, away from Dograh, disconnections by name. */
  lemma NoStatusDecidesType(cases: CaseMap, seam: Seam, o: Observation)
    requires StatusOf(cases, seam, o) == None && Classify(cases, seam, o).Ok?
    ensures var f := Classify(cases, seam, o).value;
      var dropped := o.Raised? && Has(o.e.identity, "websocket")
        && (Has(o.e.identity, "closed") || (!IsDograh(cases, seam) && Has(o.e.identity, "connection")));
      var transient := o.Raised? && (o.e.class_ != Unrelated || dropped);
      && (f.kind == ProviderError <==> transient && !IsDograh(cases, seam))
      && (f.kind == SystemError <==> !(transient && !IsDograh(cases, seam)))
      && f.retryable == (if transient then Some(true) else None)
  {
    VerdictIsKept(cases, seam, o);
    if o.Raised? {
      NamedIn(o.e, "closed", "connection");
    }
  }

  lemma NamedIn(e: Exception, a: string, b: string)
    ensures (exists m :: m in [a] && Has(e.identity, m)) <==> Has(e.identity, a)
    ensures (exists m :: m in [a, b] && Has(e.identity, m)) <==> Has(e.identity, a) || Has(e.identity, b)
  {
    assert a in [a] && a in [a, b] && b in [a, b];
  }

  lemma {:induction false} HasIsSubstring(text: string, part: string)
    ensures Has(text, part) <==> exists i :: 0 <= i <= |text| && part <= text[i..]
    decreases |text|
  {
    if text != "" {
      HasIsSubstring(text[1..], part);
      if i :| 0 <= i <= |text[1..]| && part <= text[1..][i..] {
        assert text[1..][i..] == text[i + 1..];
      }
      if i :| 0 < i <= |text| && part <= text[i..] {
        assert text[1..][i - 1..] == text[i..];
      }
      assert text[0..] == text;
    } else {
      assert text[0..] == text;
    }
  }

  /** Away from Dograh's services the user owns config and quota errors and whatever the
      seam says is the user's; the operator owns the rest. */
  lemma OwnerFollowsSeam(cases: CaseMap, seam: Seam, o: Observation)
    requires !IsDograh(cases, seam) && Classify(cases, seam, o).Ok?
    ensures var f := Classify(cases, seam, o).value;
      && f.owner.Stated? && f.source == seam.source
      && (f.owner.owner == User <==>
            f.kind == ConfigError || f.kind == QuotaError || seam.owner == Stated(User) || seam.owner == Named("user"))
  {
    VerdictIsKept(cases, seam, o);
    ClassifiersFollowPolicy(cases, seam, o);
  }

  /** A failure that nothing identifies has the code of its source. */
  lemma UnknownFailureCodes(cases: CaseMap, source: Source)
    ensures var f := Classify(cases, Seam(source, None, Unstated), Message(None));
      f.Ok? && f.value.code == UnknownCode(source)
  {
    var seam := Seam(source, None, Unstated);
    ClassifiedCodeIsProviderDetail(cases, seam, Message(None));
    RaisesExactlyOnUnusableOwner(cases, seam, Message(None));
    NothingKnown(cases, seam);
    SourceThenUnknown(source);
  }

  lemma NothingKnown(cases: CaseMap, seam: Seam)
    requires seam.provider == None
    ensures CodePrefix(cases, seam) == SourceName(seam.source) && Detail(cases, seam, Message(None)) == "unknown"
  {
  }

  lemma SourceThenUnknown(source: Source)
    ensures SourceName(source) + "-" + "unknown" == UnknownCode(source)
  {
    if source in {LLM, TTS, STT, Telephony, Transport} {
      CallSourceThenUnknown(source);
    } else {
      OtherSourceThenUnknown(source);
    }
  }

  lemma CallSourceThenUnknown(source: Source)
    requires source in {LLM, TTS, STT, Telephony, Transport}
    ensures SourceName(source) + "-" + "unknown" == UnknownCode(source)
  {
  }

  lemma OtherSourceThenUnknown(source: Source)
    requires source !in {LLM, TTS, STT, Telephony, Transport}
    ensures SourceName(source) + "-" + "unknown" == UnknownCode(source)
  {
  }

  function UnknownCode(source: Source): string {
    match source
    case LLM => "llm-unknown"
    case TTS => "tts-unknown"
    case STT => "stt-unknown"
    case Telephony => "telephony-unknown"
    case Transport => "transport-unknown"
    case Webhook => "webhook-unknown"
    case Integration => "integration-unknown"
    case Tool => "tool-unknown"
    case KnowledgeBase => "knowledge-base-unknown"
    case Platform => "platform-unknown"
  }

  lemma {:induction false} DigitsReadBack(n: nat)
    ensures AllDigits(Digits(n)) && Number(Digits(n)) == n
    ensures Digits(n)[0] == '0' <==> n == 0
    decreases n
  {
    if n >= 10 {
      DigitsReadBack(n / 10);
      assert Front(Digits(n)) == Digits(n / 10);
    }
  }

  lemma WordsAreLeftAlone(cases: CaseMap, w: string)
    requires IsWord(w)
    ensures Strip(w) == w && TrimHyphens(Collapse(Lower(cases, w))) == w
  {
    WordIsCode(w);
    LowerKeepsCollapsed(cases, w);
    CollapseKeepsCollapsed(w);
    assert Strip(w) == w && TrimHyphens(w) == w;
  }

  lemma DigitVendorCodes(cases: CaseMap, a: Attribute, digits: string, status: Option<int>)
    requires RawVendorCode(a) == Some(digits) && AllDigits(digits) && IsWord(digits) && |digits| <= 128
    ensures VendorCode(cases, a, status) == if status == Some(Number(digits)) then None else Some(digits)
  {
    WordsAreLeftAlone(cases, digits);
  }

  /** A numeric vendor code is its decimal digits, unless it only repeats the status. */
  lemma NumericVendorCodes(cases: CaseMap, n: nat, status: Option<int>)
    requires |Digits(n)| <= 128
    ensures forall a :: a in {Int(n), Member(Int(n)), Str(Digits(n)), Member(Str(Digits(n)))} ==>
      VendorCode(cases, a, status) == if status == Some(n) then None else Some(Digits(n))
  {
    DigitsReadBack(n);
    DigitsAreWord(n);
    DigitVendorCodes(cases, Int(n), Digits(n), status);
    DigitVendorCodes(cases, Member(Int(n)), Digits(n), status);
    DigitVendorCodes(cases, Str(Digits(n)), Digits(n), status);
    DigitVendorCodes(cases, Member(Str(Digits(n))), Digits(n), status);
  }

  /** A textual vendor code of at most 128 characters is normalised like any code. */
  lemma TextualVendorCodes(cases: CaseMap, text: string, status: Option<int>)
    requires |Strip(text)| <= 128 && !AllDigits(Strip(text))
    ensures VendorCode(cases, Str(text), status) == NormalizeProvider(cases, Some(text))
    ensures VendorCode(cases, Member(Str(text)), status) == NormalizeProvider(cases, Some(text))
  {
  }

  // ---------- The codes the classifiers build ----------

  lemma {:induction false} DigitsAreWord(n: nat)
    ensures IsWord(Digits(n))
    decreases n
  {
    if n >= 10 {
      DigitsAreWord(n / 10);
    }
  }

  lemma SourceNameIsCode(source: Source)
    ensures IsCode(SourceName(source))
  {
    if source == KnowledgeBase {
      assert SourceName(source) == "knowledge" + "-" + "base";
      WordIsCode("knowledge");
      WordIsCode("base");
      CodesJoin("knowledge", "base");
    } else {
      WordIsCode(SourceName(source));
    }
  }

  lemma PrefixIsCode(cases: CaseMap, seam: Seam)
    ensures IsCode(CodePrefix(cases, seam))
  {
    SourceNameIsCode(seam.source);
    if seam.provider.Some? {
      NormalizedCodeIsCode(cases, seam.provider.value);
    }
  }

  lemma DetailIsCode(cases: CaseMap, seam: Seam, o: Observation)
    requires o.Response? ==> o.status >= 0
    ensures IsCode(Detail(cases, seam, o))
  {
    WordIsCode("insufficient");
    WordIsCode("credits");
    CodesJoin("insufficient", "credits");
    assert "insufficient-credits" == "insufficient" + "-" + "credits";
    WordIsCode("timeout");
    WordIsCode("connection");
    WordIsCode("unknown");
    var status := StatusOf(cases, seam, o);
    if status.Some? {
      DigitsAreWord(status.value);
      WordIsCode(Digits(status.value));
    }
  }

  lemma DoubleHyphenIsNoCode(prefix: string, rest: string)
    ensures !IsCode(prefix + "-" + ("-" + rest))
  {
    var s := prefix + "-" + ("-" + rest);
    assert s[|prefix|] == '-' && s[|prefix| + 1] == '-';
  }

  /** Every classified failure carries exactly the code provider-detail it was built
      with, construction leaving it unchanged, unless a response with a negative
      status was classified; and its code is well formed in every case. */
  lemma ClassifiedCodeIsProviderDetail(cases: CaseMap, seam: Seam, o: Observation)
    ensures Classify(cases, seam, o).Ok? ==>
      var code := Classify(cases, seam, o).value.code;
      && IsCode(code)
      && (code == CodePrefix(cases, seam) + "-" + Detail(cases, seam, o) <==> !(o.Response? && o.status < 0))
  {
    var whole := CodePrefix(cases, seam) + "-" + Detail(cases, seam, o);
    ClassifiersFollowPolicy(cases, seam, o);
    NormalizedCodeIsCode(cases, whole);
    if o.Response? && o.status < 0 {
      DoubleHyphenIsNoCode(CodePrefix(cases, seam), Digits(-o.status));
    } else {
      PrefixIsCode(cases, seam);
      DetailIsCode(cases, seam, o);
      CodesJoin(CodePrefix(cases, seam), Detail(cases, seam, o));
      CodesAreTheFixedPoints(cases, whole);
    }
  }

  lemma ProviderAndPrefix(cases: CaseMap, seam: Seam, o: Observation)
    requires Classify(cases, seam, o).Ok?
    ensures var f := Classify(cases, seam, o).value;
      && f.provider == NormalizeProvider(cases, seam.provider)
      && CodePrefix(cases, seam) == (if f.provider.Some? then f.provider.value else SourceName(seam.source))
  {
    NormalizingIsIdempotent(cases, "", seam.provider);
    ClassifiersFollowPolicy(cases, seam, o);
  }

  /** What the code says after the provider: the status, or else what kind of failure. */
  lemma DetailNames(cases: CaseMap, seam: Seam, o: Observation)
    requires !(o.Response? && o.status < 0)
    ensures var status, detail := StatusOf(cases, seam, o), Detail(cases, seam, o);
      && (status == Some(402) && IsDograh(cases, seam) ==> detail == "insufficient-credits")
      && (status.Some? && !(status == Some(402) && IsDograh(cases, seam)) ==> detail == Digits(status.value))
      && (status.None? ==>
            detail == if !o.Raised? then "unknown"
                      else if o.e.class_ in {HttpxTimeout, TimeoutClass} then "timeout"
                      else if TransientFailure(cases, seam, o) then "connection" else "unknown")
  {
  }

  /** The code of a failure: the normalised provider, or else the source; and then the
      status, or else whether it was a timeout or a lost connection. */
  lemma CodeNamesProviderAndDetail(cases: CaseMap, seam: Seam, o: Observation)
    requires Classify(cases, seam, o).Ok? && !(o.Response? && o.status < 0)
    ensures var f := Classify(cases, seam, o).value;
      var prefix := if f.provider.Some? then f.provider.value else SourceName(seam.source);
      var status := StatusOf(cases, seam, o);
      f.code == prefix + "-" + (
        if status == Some(402) && f.provider == Some("dograh") then "insufficient-credits"
        else if status.Some? then Digits(status.value)
        else if o.Raised? && o.e.class_ in {HttpxTimeout, TimeoutClass} then "timeout"
        else if f.retryable == Some(true) then "connection"
        else "unknown")
    ensures Classify(cases, seam, o).value.provider == NormalizeProvider(cases, seam.provider)
  {
    ClassifiedCodeIsProviderDetail(cases, seam, o);
    ProviderAndPrefix(cases, seam, o);
    DetailNames(cases, seam, o);
    if StatusOf(cases, seam, o).None? {
      NoStatusRetries(cases, seam, o);
    }
  }

  lemma NoStatusRetries(cases: CaseMap, seam: Seam, o: Observation)
    requires StatusOf(cases, seam, o) == None && Classify(cases, seam, o).Ok?
    ensures Classify(cases, seam, o).value.retryable
            == if TransientFailure(cases, seam, o) then Some(true) else None
    ensures TransientFailure(cases, seam, o) ==> o.Raised?
  {
    VerdictIsKept(cases, seam, o);
  }

  /** A boolean is no vendor code, but as the value of an enumeration member it is one. */
  lemma BooleanVendorCodes(cases: CaseMap, b: bool, status: Option<int>)
    ensures VendorCode(cases, Bool(b), status) == None
    ensures VendorCode(cases, Member(Bool(b)), status)
            == NormalizeProvider(cases, Some(if b then "True" else "False"))
  {
    var name := if b then "True" else "False";
    assert Strip(name) == name && !AllDigits(name);
  }

  /** `error_code` is asked before `code`, and a number that repeats the status is passed over. */
  lemma ErrorCodeComesFirst(cases: CaseMap, e: Exception, n: nat, m: nat, status: Option<int>)
    requires |Digits(n)| <= 128 && |Digits(m)| <= 128 && status != Some(m) && e.code == Int(m)
    ensures e.errorCode == Int(n) && status != Some(n) ==> ProviderErrorCode(cases, e, status) == Some(Digits(n))
    ensures e.errorCode == Int(n) && status == Some(n) ==> ProviderErrorCode(cases, e, status) == Some(Digits(m))
    ensures e.errorCode in {Missing, Other, Bool(true), Bool(false)} ==>
      ProviderErrorCode(cases, e, status) == Some(Digits(m))
  {
    NumericVendorCodes(cases, n, status);
    NumericVendorCodes(cases, m, status);
    assert Int(n) in {Int(n)} && Int(m) in {Int(m)};
  }
}
