/**
 Compiling the filters of a workflow-run query to a conjunction of SQL conditions,
 and what the compiled query selects.
 */
module RunFilters {
  import opened Common

  datatype Run = Run(
    workflowId: int, campaignId: Option<int>, createdAt: Option<real>, hasUsage: bool, duration: Option<real>,
    cost: Option<real>, disposition: Option<string>, callTags: Option<seq<string>>, callerNumber: Option<string>,
    calledNumber: Option<string>, callType: string, mode: string, isCompleted: Option<bool>)

  type Runs = map<nat, Run>

  /** The keys of a filter's value; an absent key is None or empty. */
  datatype FilterValue = FilterValue(
    number: Option<int>, text: string, from: Option<real>, to: Option<real>, codes: seq<string>, status: string,
    min: Option<real>, max: Option<real>)

  datatype Filter = Filter(attribute: string, kind: string, value: FilterValue)

  // ---------- Conditions ----------

  datatype Condition =
    | IdIs(number: int)
    | WorkflowIs(number: int)
    | CampaignIs(number: int)
    | CreatedFrom(instant: real)
    | CreatedTo(instant: real)
    | DispositionIn(codes: seq<string>)
    | CompletedIs(completed: bool)
    | DirectionIs(direction: string)
    | ModeIn(modes: set<string>)
    | TagsContain(tags: seq<string>)
    | CallerLike(pattern: string)
    | CalledLike(pattern: string)
    | DurationFrom(amount: real)
    | DurationTo(amount: real)
    | CostFrom(amount: real)
    | CostTo(amount: real)

  /** SQL LIKE, with backslash as the escape character. */
  predicate Like(text: string, pattern: string)
    decreases |text| + |pattern|
  {
    if pattern == "" then text == ""
    else if pattern[0] == '%' then Like(text, pattern[1..]) || (text != "" && Like(text[1..], pattern))
    else if pattern[0] == '_' then text != "" && Like(text[1..], pattern[1..])
    else if pattern[0] == '\\' then
      |pattern| >= 2 && text != "" && text[0] == pattern[1] && Like(text[1..], pattern[2..])
    else text != "" && text[0] == pattern[0] && Like(text[1..], pattern[1..])
  }

  /** SQLAlchemy's contains(): the phone is placed in the pattern unescaped. */
  predicate Contains(text: string, phone: string) {
    Like(text, "%" + phone + "%")
  }

  predicate AtLeast(x: Option<real>, bound: real) {
    x.Some? && x.value >= bound
  }

  predicate AtMost(x: Option<real>, bound: real) {
    x.Some? && x.value <= bound
  }

  /** A comparison with NULL does not select the row. */
  predicate Holds(id: nat, run: Run, c: Condition) {
    match c
    case IdIs(number) => id == number
    case WorkflowIs(number) => run.workflowId == number
    case CampaignIs(number) => run.campaignId == Some(number)
    case CreatedFrom(instant) => AtLeast(run.createdAt, instant)
    case CreatedTo(instant) => AtMost(run.createdAt, instant)
    case DispositionIn(codes) => run.disposition.Some? && run.disposition.value in codes
    case CompletedIs(completed) => run.isCompleted == Some(completed)
    case DirectionIs(direction) => run.callType == direction
    case ModeIn(modes) => run.mode in modes
    case TagsContain(tags) => run.callTags.Some? && forall tag :: tag in tags ==> tag in run.callTags.value
    case CallerLike(pattern) => run.callerNumber.Some? && Contains(run.callerNumber.value, pattern)
    case CalledLike(pattern) => run.calledNumber.Some? && Contains(run.calledNumber.value, pattern)
    case DurationFrom(amount) => AtLeast(run.duration, amount)
    case DurationTo(amount) => AtMost(run.duration, amount)
    case CostFrom(amount) => AtLeast(run.cost, amount)
    case CostTo(amount) => AtMost(run.cost, amount)
  }

  /** A query's WHERE clause is the conjunction of its conditions. */
  type Query = seq<Condition>

  predicate Selects(query: Query, id: nat, run: Run) {
    forall c :: c in query ==> Holds(id, run, c)
  }

  /** The values of the run-mode enumeration, historical ones last. */
  const RUN_MODES := {
    "ari", "plivo", "twilio", "vonage", "vobiz", "cloudonix", "telnyx", "webrtc", "smallwebrtc", "textchat",
    "stasis", "VOICE", "CHAT"}

  const TELEPHONY_MODES := {"ari", "plivo", "twilio", "vonage", "vobiz", "cloudonix", "telnyx", "stasis", "VOICE"}
  const WEB_MODES := {"webrtc", "smallwebrtc"}
  const CHAT_MODES := {"textchat", "CHAT"}

  function ModesOfChannel(channel: string): set<string> {
    if channel == "telephony" then TELEPHONY_MODES
    else if channel == "web" then WEB_MODES
    else if channel == "chat" then CHAT_MODES
    else {}
  }

  datatype Field =
    | CreatedAt | Disposition | Duration | IsCompleted | TotalCost | RunId | WorkflowId | CampaignId
    | CallTags | CallerNumber | CalledNumber | CallType | Mode

  /** ATTRIBUTE_FIELD_MAPPING */
  function FieldOf(attribute: string): Option<Field> {
    if attribute == "dateRange" then Some(CreatedAt)
    else if attribute == "dispositionCode" then Some(Disposition)
    else if attribute == "duration" then Some(Duration)
    else if attribute == "status" then Some(IsCompleted)
    else if attribute == "tokenUsage" then Some(TotalCost)
    else if attribute == "runId" then Some(RunId)
    else if attribute == "workflowId" then Some(WorkflowId)
    else if attribute == "campaignId" then Some(CampaignId)
    else if attribute == "callTags" then Some(CallTags)
    else if attribute == "callerNumber" then Some(CallerNumber)
    else if attribute == "calledNumber" then Some(CalledNumber)
    else if attribute == "callDirection" then Some(CallType)
    else if attribute == "callChannel" then Some(Mode)
    else None
  }

  // ---------- What a filter asks for ----------

  predicate Within(x: Option<real>, min: Option<real>, max: Option<real>) {
    (min.Some? ==> AtLeast(x, min.value)) && (max.Some? ==> AtMost(x, max.value))
  }

  predicate MatchesPhone(number: Option<string>, phone: string) {
    Strip(phone) != "" ==> number.Some? && Contains(number.value, Strip(phone))
  }

  /** What a filter on a known field asks of a run. A type the field does not take,
      or no value, asks for nothing. */
  predicate Asks(id: nat, run: Run, field: Field, kind: string, v: FilterValue) {
    match field
    case CreatedAt => kind == "dateRange" ==> Within(run.createdAt, v.from, v.to)
    case Disposition =>
      kind == "multiSelect" && v.codes != [] ==> run.disposition.Some? && run.disposition.value in v.codes
    case Duration => kind == "numberRange" ==> Within(run.duration, v.min, v.max)
    case IsCompleted =>
      kind == "radio" ==>
        && (v.status == "completed" ==> run.isCompleted == Some(true))
        && (v.status == "in_progress" ==> run.isCompleted == Some(false))
    case TotalCost => kind == "numberRange" ==> Within(run.cost, v.min, v.max)
    case RunId => kind == "number" && v.number.Some? ==> id == v.number.value
    case WorkflowId => kind == "number" && v.number.Some? ==> run.workflowId == v.number.value
    case CampaignId => kind == "number" && v.number.Some? ==> run.campaignId == v.number
    case CallTags =>
      (kind == "tags" || kind == "multiSelect") && v.codes != [] ==>
        run.callTags.Some? && forall tag :: tag in v.codes ==> tag in run.callTags.value
    case CallerNumber => kind == "text" ==> MatchesPhone(run.callerNumber, v.text)
    case CalledNumber => kind == "text" ==> MatchesPhone(run.calledNumber, v.text)
    case CallType => kind == "radio" && (v.status == "inbound" || v.status == "outbound") ==> run.callType == v.status
    case Mode => kind == "radio" && ModesOfChannel(v.status) != {} ==> run.mode in ModesOfChannel(v.status)
  }

  /** The meaning of one filter; an unknown attribute asks for nothing. */
  predicate Meets(id: nat, run: Run, f: Filter) {
    FieldOf(f.attribute).Some? ==> Asks(id, run, FieldOf(f.attribute).value, f.kind, f.value)
  }

  predicate MeetsAll(id: nat, run: Run, filters: seq<Filter>) {
    forall f :: f in filters ==> Meets(id, run, f)
  }

  /** Which column each number filter constrains, and how. */
  lemma NumberFilters(id: nat, run: Run, v: FilterValue)
    ensures Meets(id, run, Filter("runId", "number", v)) <==> (v.number.Some? ==> v.number.value == id)
    ensures Meets(id, run, Filter("workflowId", "number", v)) <==>
      (v.number.Some? ==> v.number.value == run.workflowId)
    ensures Meets(id, run, Filter("campaignId", "number", v)) <==> (v.number.Some? ==> run.campaignId == v.number)
  {
  }

  /** Range filters take in both bounds, and a row without a value is outside any bound. */
  lemma RangeFilters(id: nat, run: Run, v: FilterValue)
    ensures Meets(id, run, Filter("dateRange", "dateRange", v)) <==>
      && (v.from.Some? ==> run.createdAt.Some? && v.from.value <= run.createdAt.value)
      && (v.to.Some? ==> run.createdAt.Some? && run.createdAt.value <= v.to.value)
    ensures Meets(id, run, Filter("duration", "numberRange", v)) <==>
      && (v.min.Some? ==> run.duration.Some? && v.min.value <= run.duration.value)
      && (v.max.Some? ==> run.duration.Some? && run.duration.value <= v.max.value)
    ensures Meets(id, run, Filter("tokenUsage", "numberRange", v)) <==>
      && (v.min.Some? ==> run.cost.Some? && v.min.value <= run.cost.value)
      && (v.max.Some? ==> run.cost.Some? && run.cost.value <= v.max.value)
  {
  }

  /** A disposition filter asks for one of its codes, a tag filter for all of them. */
  lemma CodeFilters(id: nat, run: Run, v: FilterValue)
    requires v.codes != []
    ensures Meets(id, run, Filter("dispositionCode", "multiSelect", v)) <==>
      exists code :: code in v.codes && run.disposition == Some(code)
    ensures Meets(id, run, Filter("callTags", "tags", v)) <==>
      run.callTags.Some? && forall code :: code in v.codes ==> code in run.callTags.value
    ensures Meets(id, run, Filter("callTags", "multiSelect", v)) <==> Meets(id, run, Filter("callTags", "tags", v))
  {
  }

  lemma RadioFilters(id: nat, run: Run, v: FilterValue)
    ensures Meets(id, run, Filter("status", "radio", v.(status := "completed"))) <==> run.isCompleted == Some(true)
    ensures Meets(id, run, Filter("status", "radio", v.(status := "in_progress"))) <==> run.isCompleted == Some(false)
    ensures Meets(id, run, Filter("callDirection", "radio", v.(status := "inbound"))) <==> run.callType == "inbound"
    ensures Meets(id, run, Filter("callDirection", "radio", v.(status := "outbound"))) <==> run.callType == "outbound"
  {
    var completed, inbound := v.(status := "completed"), v.(status := "inbound");
    assert completed.status == "completed" && inbound.status == "inbound";
    assert "completed" != "in_progress" && "inbound" != "outbound";
  }

  lemma PhoneFilters(id: nat, run: Run, v: FilterValue)
    requires Strip(v.text) != ""
    ensures Meets(id, run, Filter("callerNumber", "text", v)) <==>
      run.callerNumber.Some? && Contains(run.callerNumber.value, Strip(v.text))
    ensures Meets(id, run, Filter("calledNumber", "text", v)) <==>
      run.calledNumber.Some? && Contains(run.calledNumber.value, Strip(v.text))
  {
  }

  /** The types each attribute takes. */
  const KINDS := {
    ("runId", "number"), ("workflowId", "number"), ("campaignId", "number"), ("dateRange", "dateRange"),
    ("duration", "numberRange"), ("tokenUsage", "numberRange"), ("dispositionCode", "multiSelect"),
    ("callTags", "multiSelect"), ("callTags", "tags"), ("status", "radio"), ("callDirection", "radio"),
    ("callChannel", "radio"), ("callerNumber", "text"), ("calledNumber", "text")}

  /** An unknown attribute, a type it does not take or an empty value asks for nothing. */
  lemma IdleFilters(id: nat, run: Run, f: Filter)
    requires (f.attribute, f.kind) !in KINDS || f.value == FilterValue(None, "", None, None, [], "", None, None)
    ensures Meets(id, run, f)
  {
    if f.value.status == "" {
      assert ModesOfChannel(f.value.status) == {};
    }
  }

  // ---------- The compiler ----------

  /** `added` asks of every run exactly what the filter asks. */
  ghost predicate Compiles(f: Filter, added: Query) {
    forall id, run :: Selects(added, id, run) <==> Meets(id, run, f)
  }

  ghost predicate CompilesField(field: Field, kind: string, v: FilterValue, added: Query) {
    forall id, run :: Selects(added, id, run) <==> Asks(id, run, field, kind, v)
  }

  lemma SelectsJoin(a: Query, b: Query, id: nat, run: Run)
    ensures Selects(a + b, id, run) <==> Selects(a, id, run) && Selects(b, id, run)
  {
    forall c ensures c in a + b <==> c in a || c in b {}
  }

  method Only(c: Condition) returns (added: Query)
    ensures forall id, run :: Selects(added, id, run) <==> Holds(id, run, c)
  {
    added := [c];
    assert forall x :: x in [c] <==> x == c;
  }

  method CompileRange(low: Option<Condition>, high: Option<Condition>) returns (added: Query)
    ensures forall id, run :: Selects(added, id, run) <==>
      (low.Some? ==> Holds(id, run, low.value)) && (high.Some? ==> Holds(id, run, high.value))
  {
    added := [];
    if low.Some? {
      added := added + [low.value];
    }
    if high.Some? {
      added := added + [high.value];
    }
    forall id, run
      ensures Selects(added, id, run) <==>
        (low.Some? ==> Holds(id, run, low.value)) && (high.Some? ==> Holds(id, run, high.value))
    {
      SelectsJoin(if low.Some? then [low.value] else [], if high.Some? then [high.value] else [], id, run);
    }
  }

  method NumberConditions(field: Field, kind: string, v: FilterValue) returns (added: Query)
    requires kind == "number"
    ensures CompilesField(field, kind, v, added)
  {
    added := [];
    if v.number.Some? {
      match field {
        case RunId => added := Only(IdIs(v.number.value));
        case WorkflowId => added := Only(WorkflowIs(v.number.value));
        case CampaignId => added := Only(CampaignIs(v.number.value));
        case _ =>
      }
    }
  }

  method StatusConditions(status: string) returns (added: Query)
    ensures forall id, run :: Selects(added, id, run) <==>
      (status == "completed" ==> run.isCompleted == Some(true))
      && (status == "in_progress" ==> run.isCompleted == Some(false))
  {
    added := [];
    if status == "completed" {
      added := Only(CompletedIs(true));
    } else if status == "in_progress" {
      added := Only(CompletedIs(false));
    }
  }

  method RadioConditions(field: Field, kind: string, v: FilterValue) returns (added: Query)
    requires kind == "radio"
    ensures CompilesField(field, kind, v, added)
  {
    added := [];
    if field == IsCompleted {
      added := StatusConditions(v.status);
    } else if field == CallType {
      if v.status == "inbound" || v.status == "outbound" {
        added := Only(DirectionIs(v.status));
      }
    } else if field == Mode {
      var modes := ModesOfChannel(v.status);
      if modes != {} {
        added := Only(ModeIn(modes));
      }
    }
  }

  method CodeConditions(field: Field, kind: string, v: FilterValue) returns (added: Query)
    requires kind == "multiSelect" || kind == "tags"
    ensures CompilesField(field, kind, v, added)
  {
    added := [];
    if kind == "multiSelect" && field == Disposition {
      if v.codes != [] {
        added := Only(DispositionIn(v.codes));
      }
    } else if field == CallTags {
      if v.codes != [] {
        added := Only(TagsContain(v.codes));
      }
    }
  }

  method TextConditions(field: Field, kind: string, v: FilterValue) returns (added: Query)
    requires kind == "text"
    ensures CompilesField(field, kind, v, added)
  {
    added := [];
    var phone := Strip(v.text);
    if phone != "" {
      if field == CallerNumber {
        added := Only(CallerLike(phone));
      } else if field == CalledNumber {
        added := Only(CalledLike(phone));
      }
    }
  }

  method DurationRange(min: Option<real>, max: Option<real>) returns (added: Query)
    ensures forall id, run :: Selects(added, id, run) <==> Within(run.duration, min, max)
  {
    added := CompileRange(
      if min.Some? then Some(DurationFrom(min.value)) else None,
      if max.Some? then Some(DurationTo(max.value)) else None);
  }

  method CostRange(min: Option<real>, max: Option<real>) returns (added: Query)
    ensures forall id, run :: Selects(added, id, run) <==> Within(run.cost, min, max)
  {
    added := CompileRange(
      if min.Some? then Some(CostFrom(min.value)) else None,
      if max.Some? then Some(CostTo(max.value)) else None);
  }

  method RangeConditions(field: Field, kind: string, v: FilterValue) returns (added: Query)
    requires kind == "numberRange"
    ensures CompilesField(field, kind, v, added)
  {
    added := [];
    if field == Duration {
      added := DurationRange(v.min, v.max);
    } else if field == TotalCost {
      added := CostRange(v.min, v.max);
    }
  }

  /** One turn of the loop over the filters, branching on type and field. */
  method ConditionsOf(f: Filter) returns (added: Query)
    ensures Compiles(f, added)
  {
    added := [];
    var field := FieldOf(f.attribute);
    if field.None? {
      return;
    }
    if f.kind == "number" {
      added := NumberConditions(field.value, f.kind, f.value);
    } else if f.kind == "dateRange" {
      if field.value == CreatedAt {
        var v := f.value;
        added := CompileRange(
        if v.from.Some? then Some(CreatedFrom(v.from.value)) else None,
        if v.to.Some? then Some(CreatedTo(v.to.value)) else None);
      }
    } else if f.kind == "multiSelect" || f.kind == "tags" {
      added := CodeConditions(field.value, f.kind, f.value);
    } else if f.kind == "radio" {
      added := RadioConditions(field.value, f.kind, f.value);
    } else if f.kind == "text" {
      added := TextConditions(field.value, f.kind, f.value);
    } else if f.kind == "numberRange" {
      added := RangeConditions(field.value, f.kind, f.value);
    }
  }

  /** The compiled query selects exactly the runs the base query selects and that
      meet every filter. */
  ghost predicate Applies(base: Query, filters: seq<Filter>, query: Query) {
    forall id, run :: Selects(query, id, run) <==> Selects(base, id, run) && MeetsAll(id, run, filters)
  }

  method ApplyWorkflowRunFilters(base: Query, filters: seq<Filter>) returns (query: Query)
    ensures Applies(base, filters, query)
    ensures base <= query
  {
    var conditions: Query := [];
    var i := 0;
    while i < |filters|
      invariant 0 <= i <= |filters|
      invariant forall id, run :: Selects(conditions, id, run) <==> MeetsAll(id, run, filters[..i])
    {
      var added := ConditionsOf(filters[i]);
      forall id, run
        ensures Selects(conditions + added, id, run) <==> MeetsAll(id, run, filters[..i + 1])
      {
        SelectsJoin(conditions, added, id, run);
        assert forall f :: f in filters[..i + 1] <==> f in filters[..i] || f == filters[i];
      }
      conditions := conditions + added;
      i := i + 1;
    }
    assert filters[..i] == filters;
    forall id, run
      ensures Selects(base + conditions, id, run) <==> Selects(base, id, run) && MeetsAll(id, run, filters)
    {
      SelectsJoin(base, conditions, id, run);
    }
    query := base + conditions;
  }

  /** Applying one list and then another selects what applying both as one list does. */
  lemma ApplyingTwiceIsApplyingBoth(base: Query, f: seq<Filter>, g: seq<Filter>, first: Query, second: Query)
    requires Applies(base, f, first) && Applies(first, g, second)
    ensures Applies(base, f + g, second)
  {
    forall id, run ensures MeetsAll(id, run, f + g) <==> MeetsAll(id, run, f) && MeetsAll(id, run, g) {
      forall x ensures x in f + g <==> x in f || x in g {}
    }
  }

  /** Neither the order nor the repetition of filters matters. */
  lemma FilterOrderDoesNotMatter(base: Query, f: seq<Filter>, g: seq<Filter>, query: Query)
    requires (forall x :: x in f <==> x in g) && Applies(base, f, query)
    ensures Applies(base, g, query)
  {
    forall id, run ensures MeetsAll(id, run, f) <==> MeetsAll(id, run, g) {}
  }

  const CHANNELS := {"telephony", "web", "chat"}

  /** The run passes the filter that a channel's button sends. */
  predicate MeetsChannel(id: nat, run: Run, v: FilterValue, channel: string) {
    Meets(id, run, Filter("callChannel", "radio", v.(status := channel)))
  }

  lemma ChannelFilterAsksForMode(id: nat, run: Run, v: FilterValue, channel: string)
    requires channel in CHANNELS
    ensures MeetsChannel(id, run, v, channel) <==> run.mode in ModesOfChannel(channel)
  {
    assert FieldOf("callChannel") == Some(Mode);
    assert "ari" in TELEPHONY_MODES && "webrtc" in WEB_MODES && "CHAT" in CHAT_MODES;
  }

  lemma ChannelsAreDisjoint()
    ensures TELEPHONY_MODES !! WEB_MODES && TELEPHONY_MODES !! CHAT_MODES && WEB_MODES !! CHAT_MODES
    ensures "telephony" != "web" && "telephony" != "chat" && "web" != "chat"
  {
  }

  lemma ChannelsCoverModes(mode: string)
    ensures mode in RUN_MODES <==> mode in TELEPHONY_MODES || mode in WEB_MODES || mode in CHAT_MODES
  {
  }

  /** Every mode of the enumeration, historical ones included, belongs to exactly one
      channel: two channel filters never share a run, and a run passes one of the three
      exactly when its mode is one of the enumeration. */
  lemma ChannelsPartitionModes(id: nat, run: Run, v: FilterValue)
    ensures forall a, b :: a in CHANNELS && MeetsChannel(id, run, v, a) ==>
      b in CHANNELS && MeetsChannel(id, run, v, b) ==> a == b
    ensures (exists a :: a in CHANNELS && MeetsChannel(id, run, v, a)) <==> run.mode in RUN_MODES
  {
    ChannelsAreDisjoint();
    ChannelsCoverModes(run.mode);
    forall a | a in CHANNELS ensures MeetsChannel(id, run, v, a) <==> run.mode in ModesOfChannel(a) {
      ChannelFilterAsksForMode(id, run, v, a);
    }
    assert ModesOfChannel("telephony") == TELEPHONY_MODES && ModesOfChannel("web") == WEB_MODES;
    assert ModesOfChannel("chat") == CHAT_MODES;
    if run.mode in RUN_MODES {
      var a := if run.mode in TELEPHONY_MODES then "telephony" else if run.mode in WEB_MODES then "web" else "chat";
      assert a in CHANNELS && MeetsChannel(id, run, v, a);
    }
  }

  /** The web and chat channels are these modes; every other mode is telephony. */
  lemma ModesOfChannels(id: nat, run: Run, v: FilterValue)
    ensures MeetsChannel(id, run, v, "web") <==> run.mode in {"webrtc", "smallwebrtc"}
    ensures MeetsChannel(id, run, v, "chat") <==> run.mode in {"textchat", "CHAT"}
    ensures MeetsChannel(id, run, v, "telephony") <==>
      run.mode in RUN_MODES && run.mode !in {"webrtc", "smallwebrtc", "textchat", "CHAT"}
  {
    ChannelFilterAsksForMode(id, run, v, "web");
    ChannelFilterAsksForMode(id, run, v, "chat");
    ChannelFilterAsksForMode(id, run, v, "telephony");
    assert "telephony" != "web" && "telephony" != "chat" && "web" != "chat";
  }

  // ---------- When a phone filter is a substring search ----------

  predicate Literal(c: char) {
    c != '%' && c != '_' && c != '\\'
  }

  predicate Plain(phone: string) {
    forall i :: 0 <= i < |phone| ==> Literal(phone[i])
  }

  predicate Substring(text: string, phone: string) {
    phone <= text || (text != "" && Substring(text[1..], phone))
  }

  lemma {:induction false} SubstringIsNoLonger(text: string, phone: string)
    requires Substring(text, phone)
    ensures |phone| <= |text| && (|phone| == |text| ==> phone == text)
    decreases |text|
  {
    if !(phone <= text) {
      SubstringIsNoLonger(text[1..], phone);
    }
  }

  lemma {:induction false} PlainThenAnything(text: string, phone: string)
    requires Plain(phone)
    ensures Like(text, phone + "%") <==> phone <= text
    decreases |phone|
  {
    if phone == "" {
      assert phone + "%" == "%";
      AnythingMatchesPercent(text);
    } else if text != "" {
      assert (phone + "%")[1..] == phone[1..] + "%";
      PlainThenAnything(text[1..], phone[1..]);
      if phone <= text {
        assert phone[1..] <= text[1..];
      }
      if text[0] == phone[0] && phone[1..] <= text[1..] {
        assert phone == [phone[0]] + phone[1..] && text == [text[0]] + text[1..];
      }
    }
  }

  lemma {:induction false} AnythingMatchesPercent(text: string)
    ensures Like(text, "%")
    decreases |text|
  {
    if text == "" {
      assert Like("", "");
    } else {
      AnythingMatchesPercent(text[1..]);
    }
  }

  lemma {:induction false} PlainContainsIsSubstring(text: string, phone: string)
    requires Plain(phone)
    ensures Contains(text, phone) <==> Substring(text, phone)
    decreases |text|
  {
    var pattern := "%" + phone + "%";
    assert pattern[1..] == phone + "%";
    PlainThenAnything(text, phone);
    if !(phone <= text) && text != "" {
      PlainContainsIsSubstring(text[1..], phone);
    }
  }

  /** A text that a pattern matches, taking nothing for '%' and 'a' for '_'. */
  function Sample(pattern: string): string
    decreases |pattern|
  {
    if pattern == "" then ""
    else if pattern[0] == '%' then Sample(pattern[1..])
    else if pattern[0] == '_' then "a" + Sample(pattern[1..])
    else if pattern[0] == '\\' && |pattern| >= 2 then [pattern[1]] + Sample(pattern[2..])
    else [pattern[0]] + Sample(pattern[1..])
  }

  /** No pattern built from a phone ends in a bare escape, so it has a sample. */
  lemma {:induction false} SampleMatches(phone: string)
    ensures Like(Sample(phone + "%"), phone + "%")
    ensures |Sample(phone + "%")| <= |phone| && (Sample(phone + "%") == phone ==> Plain(phone))
    decreases |phone|
  {
    var pattern := phone + "%";
    if phone == "" {
      assert pattern[1..] == "" && Sample("") == "" && Like("", "");
    } else if phone == "\\" {
      assert pattern == "\\%" && pattern[2..] == "" && Like("%"[1..], "");
    } else if phone[0] == '\\' {
      assert pattern[2..] == phone[2..] + "%";
      SampleMatches(phone[2..]);
      assert Sample(pattern)[1..] == Sample(phone[2..] + "%");
    } else {
      assert pattern[1..] == phone[1..] + "%";
      SampleMatches(phone[1..]);
      if phone[0] != '%' {
        assert Sample(pattern)[1..] == Sample(phone[1..] + "%");
        if Sample(pattern) == phone {
          assert phone[1..] == Sample(phone[1..] + "%");
          assert forall i :: 1 <= i < |phone| ==> phone[i] == phone[1..][i - 1];
        }
      }
    }
  }

  /** The phone filters are documented as a substring match. They are one exactly for
      phones without '%', '_' and backslash: any other phone matches some number
      that does not contain it. */
  lemma PhoneFilterIsSubstringExactlyWhenPlain(phone: string)
    ensures (forall text :: Contains(text, phone) <==> Substring(text, phone)) <==> Plain(phone)
  {
    if Plain(phone) {
      forall text ensures Contains(text, phone) <==> Substring(text, phone) {
        PlainContainsIsSubstring(text, phone);
      }
    } else {
      var text := Sample(phone + "%");
      SampleMatches(phone);
      assert ("%" + phone + "%")[1..] == phone + "%";
      assert Contains(text, phone);
      if Substring(text, phone) {
        SubstringIsNoLonger(text, phone);
        assert false;
      }
      assert !Substring(text, phone);
    }
  }
}
