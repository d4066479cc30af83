/** Team templates as documents: exporting one, reading one, importing it again. */
module TeamInterchange {
  import opened Json
  import opened Text
  import opened Wrappers
  import InboxIdentity

  // A template as the daemon describes it, and as a document

  datatype SlotBody = SlotBody(
    profileId: string, agentName: string, modelOverride: Option<string>, reasoning: Option<string>,
    layout: Option<Value>, display: Option<Value>)

  datatype TemplateSlot = TemplateSlot(slotId: string, position: nat, body: SlotBody)

  datatype TemplateEdge = TemplateEdge(
    sourceKind: string, sourceId: Option<string>, targetKind: string, targetId: Option<string>, posture: string)

  datatype Template = Template(
    id: string, name: string, userMd: Option<string>, slots: seq<TemplateSlot>, edges: seq<TemplateEdge>)

  datatype DocSlot = DocSlot(key: string, body: SlotBody)

  /** A kind is whatever value the document holds; the parser checks only its text. */
  datatype DocEdge = DocEdge(
    sourceKind: Value, sourceKey: Option<string>, targetKind: Value, targetKey: Option<string>, posture: string)

  datatype Document = Document(
    id: string, name: string, userMd: Option<string>, slots: seq<DocSlot>, edges: seq<DocEdge>)

  const KIND := "bazilion.team-template"
  const LEVELS := {"off", "minimal", "low", "medium", "high", "xhigh"}
  const KINDS := {"user", "outside_team", "slot"}
  const SLOT := Str("slot")

  // Exporting

  /** `slot-1` is at position 0. */
  function PositionKey(position: nat): string {
    var digits := InboxIdentity.Decimal(position + 1);
    "slot-" + seq(|digits|, i requires 0 <= i < |digits| => digits[i] as char)
  }

  /** `new Map(pairs).get(key)`: the last pair wins. */
  function Lookup(pairs: seq<(string, string)>, key: string): Option<string> {
    if pairs == [] then None
    else if pairs[|pairs| - 1].0 == key then Some(pairs[|pairs| - 1].1)
    else Lookup(pairs[..|pairs| - 1], key)
  }

  function KeysById(slots: seq<TemplateSlot>): seq<(string, string)> {
    seq(|slots|, i requires 0 <= i < |slots| => (slots[i].slotId, PositionKey(slots[i].position)))
  }

  function EndpointKey(t: Template, kind: string, id: Option<string>): Option<string> {
    if kind == "slot" then Lookup(KeysById(t.slots), ValueOr(id, "")) else None
  }

  function ExportTeamDocument(t: Template): Document {
    Document(
      t.id, t.name, t.userMd,
      seq(|t.slots|, i requires 0 <= i < |t.slots| =>
        DocSlot(ValueOr(Lookup(KeysById(t.slots), t.slots[i].slotId), ""), t.slots[i].body)),
      seq(|t.edges|, i requires 0 <= i < |t.edges| =>
        DocEdge(Str(t.edges[i].sourceKind), EndpointKey(t, t.edges[i].sourceKind, t.edges[i].sourceId),
                Str(t.edges[i].targetKind), EndpointKey(t, t.edges[i].targetKind, t.edges[i].targetId),
                t.edges[i].posture)))
  }

  // Documents as JSON

  function TextJson(o: Option<string>): Value {
    if o.Some? then Str(o.value) else Null
  }

  function SlotJson(s: DocSlot): Value {
    Obj(map["key" := Str(s.key), "profileId" := Str(s.body.profileId), "agentName" := Str(s.body.agentName),
            "modelOverride" := TextJson(s.body.modelOverride), "reasoningLevel" := TextJson(s.body.reasoning),
            "layoutPosition" := ValueOr(s.body.layout, Null), "display" := ValueOr(s.body.display, Null)])
  }

  function EdgeJson(e: DocEdge): Value {
    Obj(map["sourceKind" := e.sourceKind, "sourceKey" := TextJson(e.sourceKey),
            "targetKind" := e.targetKind, "targetKey" := TextJson(e.targetKey), "posture" := Str(e.posture)])
  }

  function SlotJsons(slots: seq<DocSlot>): (r: seq<Value>)
    ensures |r| == |slots|
  {
    seq(|slots|, i requires 0 <= i < |slots| => SlotJson(slots[i]))
  }

  function EdgeJsons(edges: seq<DocEdge>): (r: seq<Value>)
    ensures |r| == |edges|
  {
    seq(|edges|, i requires 0 <= i < |edges| => EdgeJson(edges[i]))
  }

  function ToJson(d: Document): Value {
    Obj(map["version" := IntValue(1), "kind" := Str(KIND),
            "template" := Obj(map["id" := Str(d.id), "name" := Str(d.name), "userMd" := TextJson(d.userMd)]),
            "slots" := Arr(SlotJsons(d.slots)),
            "edges" := Arr(EdgeJsons(d.edges))])
  }

  // Parsing

  function ParseText(v: Option<Value>): Option<string> {
    if IsText(v) && Trim(v.value.text) != "" then Some(Trim(v.value.text)) else None
  }

  predicate IsNullableText(v: Option<Value>) {
    IsNullish(v) || v.value.Str?
  }

  function NullableText(v: Option<Value>): Option<string>
    requires IsNullableText(v)
  {
    if IsNullish(v) then None else Some(v.value.text)
  }

  /**
   `String(value)`, as far as an endpoint kind can come of it: text stays text, an array of one
   is the text of its element; anything else gives a text that is no kind.
   */
  function KindText(v: Value): Option<string> {
    match v
    case Str(s) => Some(s)
    case Arr(items) => if |items| == 1 then KindText(items[0]) else None
    case _ => None
  }

  predicate IsKind(v: Option<Value>) {
    v.Some? && KindText(v.value).Some? && KindText(v.value).value in KINDS
  }

  predicate LevelOk(v: Option<Value>) {
    IsNullish(v) || (v.value.Str? && v.value.text in LEVELS)
  }

  predicate LayoutOk(v: Option<Value>) {
    IsNullish(v) || (v.value.Obj? && IsFinite(Get(v.value, "x")) && IsFinite(Get(v.value, "y")))
  }

  predicate DisplayOk(v: Option<Value>) {
    IsNullish(v) || v.value.Obj?
  }

  function OrNull(v: Option<Value>): Option<Value> {
    if IsNullish(v) then None else v
  }

  function ParseSlot(raw: Value): Option<DocSlot> {
    if !raw.Obj? then None
    else
      var key, profileId, agentName :=
          ParseText(Get(raw, "key")), ParseText(Get(raw, "profileId")), ParseText(Get(raw, "agentName"));
      var model, level := Get(raw, "modelOverride"), Get(raw, "reasoningLevel");
      var layout, display := Get(raw, "layoutPosition"), Get(raw, "display");
      if key.None? || profileId.None? || agentName.None? || !IsNullableText(model)
         || !LevelOk(level) || !LayoutOk(layout) || !DisplayOk(display) then None
      else Some(DocSlot(key.value, SlotBody(profileId.value, agentName.value, NullableText(model),
                                            if IsNullish(level) then None else Some(level.value.text),
                                            OrNull(layout), OrNull(display))))
  }

  predicate EndpointOk(kind: Value, key: Option<string>, keys: set<string>) {
    if kind == SLOT then key.Some? && key.value != "" && key.value in keys else key.None?
  }

  function ParsePosture(v: Option<Value>): Option<string> {
    if v.None? || IsExactly(v, "allow") then Some("allow")
    else if IsExactly(v, "approval_required") then Some("approval_required")
    else None
  }

  function ParseEdge(raw: Value, keys: set<string>): Option<DocEdge> {
    if !raw.Obj? then None
    else
      var sourceKind, targetKind := Get(raw, "sourceKind"), Get(raw, "targetKind");
      var sourceKey, targetKey := Get(raw, "sourceKey"), Get(raw, "targetKey");
      var posture := ParsePosture(Get(raw, "posture"));
      if !IsKind(sourceKind) || !IsKind(targetKind) || !IsNullableText(sourceKey) || !IsNullableText(targetKey)
         || posture.None? then None
      else
        var e := DocEdge(
            sourceKind.value, NullableText(sourceKey), targetKind.value, NullableText(targetKey), posture.value);
        if EdgeOk(e, keys) then Some(e) else None
  }

  predicate EdgeOk(e: DocEdge, keys: set<string>) {
    && IsKind(Some(e.sourceKind)) && IsKind(Some(e.targetKind))
    && EndpointOk(e.sourceKind, e.sourceKey, keys) && EndpointOk(e.targetKind, e.targetKey, keys)
    && (e.sourceKind, e.sourceKey) != (e.targetKind, e.targetKey)
    && (e.posture == "allow" || e.posture == "approval_required")
  }

  /** Two edges between the same endpoints. */
  predicate SameEdge(e: DocEdge, f: DocEdge) {
    Signature(e) == Signature(f)
  }

  function Signature(e: DocEdge): ((Value, Option<string>), (Value, Option<string>)) {
    ((e.sourceKind, e.sourceKey), (e.targetKind, e.targetKey))
  }

  function KeysOf(slots: seq<DocSlot>): set<string> {
    set s | s in slots :: s.key
  }

  function ParseSlots(raws: seq<Value>): Option<seq<DocSlot>> {
    if raws == [] then Some([])
    else
      var front, last := ParseSlots(raws[..|raws| - 1]), ParseSlot(raws[|raws| - 1]);
      if front.None? || last.None? || last.value.key in KeysOf(front.value) then None
      else Some(front.value + [last.value])
  }

  function ParseEdges(raws: seq<Value>, keys: set<string>): Option<seq<DocEdge>> {
    if raws == [] then Some([])
    else
      var front, last := ParseEdges(raws[..|raws| - 1], keys), ParseEdge(raws[|raws| - 1], keys);
      if front.None? || last.None? || (exists e :: e in front.value && SameEdge(e, last.value)) then None
      else Some(front.value + [last.value])
  }

  function Parse(value: Value): Option<Document> {
    if !value.Obj? || Get(value, "version") != Some(IntValue(1)) || !IsExactly(Get(value, "kind"), KIND) then None
    else
      var meta, rawSlots, rawEdges := Get(value, "template"), Get(value, "slots"), Get(value, "edges");
      if meta.None? || !meta.value.Obj? || rawSlots.None? || !rawSlots.value.Arr? || rawEdges.None?
         || !rawEdges.value.Arr? then None
      else
        var slots := ParseSlots(rawSlots.value.items);
        if slots.None? then None
        else
          var edges := ParseEdges(rawEdges.value.items, KeysOf(slots.value));
          var id, name, userMd :=
            ParseText(Get(meta.value, "id")), ParseText(Get(meta.value, "name")), Get(meta.value, "userMd");
          if edges.None? || id.None? || name.None? || !IsNullableText(userMd) then None
          else Some(Document(id.value, name.value, NullableText(userMd), slots.value, edges.value))
  }

  method ParseTeamDocument(value: Value) returns (doc: Option<Document>)
    ensures doc == Parse(value)
  {
    if !value.Obj? { return None; }
    if Get(value, "version") != Some(IntValue(1)) || !IsExactly(Get(value, "kind"), KIND) { return None; }
    var meta := Get(value, "template");
    if meta.None? || !meta.value.Obj? { return None; }
    var rawSlots, rawEdges := Get(value, "slots"), Get(value, "edges");
    if rawSlots.None? || !rawSlots.value.Arr? || rawEdges.None? || !rawEdges.value.Arr? { return None; }
    var slots, keys := WalkSlots(rawSlots.value.items);
    if slots.None? { return None; }
    var edges := WalkEdges(rawEdges.value.items, keys);
    if edges.None? { return None; }
    var id, name := ParseText(Get(meta.value, "id")), ParseText(Get(meta.value, "name"));
    var userMd := Get(meta.value, "userMd");
    if id.None? || name.None? || !IsNullableText(userMd) { return None; }
    doc := Some(Document(id.value, name.value, NullableText(userMd), slots.value, edges.value));
  }

  method WalkSlots(raws: seq<Value>) returns (slots: Option<seq<DocSlot>>, keys: set<string>)
    ensures slots == ParseSlots(raws)
    ensures slots.Some? ==> keys == KeysOf(slots.value)
  {
    keys := {};
    var walked: seq<DocSlot> := [];
    for i := 0 to |raws|
      invariant ParseSlots(raws[..i]) == Some(walked) && keys == KeysOf(walked)
    {
      assert raws[..i + 1][..i] == raws[..i];
      var slot := ParseSlot(raws[i]);
      if slot.None? || slot.value.key in keys {
        SlotsStop(raws, i + 1);
        return None, {};
      }
      keys := keys + {slot.value.key};
      walked := walked + [slot.value];
    }
    assert raws[..|raws|] == raws;
    slots := Some(walked);
  }

  lemma {:induction false} SlotsStop(raws: seq<Value>, i: nat)
    requires i <= |raws| && ParseSlots(raws[..i]).None?
    ensures ParseSlots(raws).None?
    decreases |raws|
  {
    if i == |raws| {
      assert raws[..i] == raws;
    } else {
      assert raws[..|raws| - 1][..i] == raws[..i];
      SlotsStop(raws[..|raws| - 1], i);
    }
  }

  method WalkEdges(raws: seq<Value>, keys: set<string>) returns (edges: Option<seq<DocEdge>>)
    ensures edges == ParseEdges(raws, keys)
  {
    var seen: set<((Value, Option<string>), (Value, Option<string>))> := {};
    var walked: seq<DocEdge> := [];
    for i := 0 to |raws|
      invariant ParseEdges(raws[..i], keys) == Some(walked)
      invariant seen == set e | e in walked :: Signature(e)
    {
      assert raws[..i + 1][..i] == raws[..i];
      var edge := ParseEdge(raws[i], keys);
      if edge.None? || Signature(edge.value) in seen {
        EdgesStop(raws, keys, i + 1);
        return None;
      }
      seen := seen + {Signature(edge.value)};
      walked := walked + [edge.value];
    }
    assert raws[..|raws|] == raws;
    edges := Some(walked);
  }

  lemma {:induction false} EdgesStop(raws: seq<Value>, keys: set<string>, i: nat)
    requires i <= |raws| && ParseEdges(raws[..i], keys).None?
    ensures ParseEdges(raws, keys).None?
    decreases |raws|
  {
    if i == |raws| {
      assert raws[..i] == raws;
    } else {
      assert raws[..|raws| - 1][..i] == raws[..i];
      EdgesStop(raws[..|raws| - 1], keys, i);
    }
  }

  // What a parsed document is

  predicate IsProperText(s: string) {
    s != "" && IsTrimmed(s)
  }

  predicate SlotOk(s: DocSlot) {
    && IsProperText(s.key) && IsProperText(s.body.profileId) && IsProperText(s.body.agentName)
    && (s.body.reasoning.Some? ==> s.body.reasoning.value in LEVELS)
    && (s.body.layout.Some? ==> s.body.layout.value.Obj? && LayoutOk(s.body.layout))
    && (s.body.display.Some? ==> s.body.display.value.Obj?)
  }

  predicate DocumentOk(d: Document) {
    && IsProperText(d.id) && IsProperText(d.name)
    && (forall s | s in d.slots :: SlotOk(s))
    && (forall i, j | 0 <= i < j < |d.slots| :: d.slots[i].key != d.slots[j].key)
    && (forall e | e in d.edges :: EdgeOk(e, KeysOf(d.slots)))
    && (forall i, j | 0 <= i < j < |d.edges| :: !SameEdge(d.edges[i], d.edges[j]))
  }

  lemma ParsedText(v: Option<Value>)
    requires ParseText(v).Some?
    ensures IsProperText(ParseText(v).value)
  {
    TrimIsTrimmed(v.value.text);
  }

  lemma ProperText(s: string)
    ensures ParseText(Some(Str(s))) == Some(s) <==> IsProperText(s)
  {
    TrimIsTrimmed(s);
  }

  lemma ParsedSlot(raw: Value)
    requires ParseSlot(raw).Some?
    ensures SlotOk(ParseSlot(raw).value)
  {
    ParsedText(Get(raw, "key"));
    ParsedText(Get(raw, "profileId"));
    ParsedText(Get(raw, "agentName"));
  }

  lemma {:induction false} ParsedSlots(raws: seq<Value>)
    requires ParseSlots(raws).Some?
    ensures forall s | s in ParseSlots(raws).value :: SlotOk(s)
    ensures forall i, j | 0 <= i < j < |ParseSlots(raws).value| ::
              ParseSlots(raws).value[i].key != ParseSlots(raws).value[j].key
  {
    if raws != [] {
      ParsedSlots(raws[..|raws| - 1]);
      ParsedSlot(raws[|raws| - 1]);
      var front := ParseSlots(raws[..|raws| - 1]).value;
      assert forall i | 0 <= i < |front| :: front[i].key in KeysOf(front);
    }
  }

  lemma {:induction false} ParsedEdges(raws: seq<Value>, keys: set<string>)
    requires ParseEdges(raws, keys).Some?
    ensures forall e | e in ParseEdges(raws, keys).value :: EdgeOk(e, keys)
    ensures forall i, j | 0 <= i < j < |ParseEdges(raws, keys).value| ::
              !SameEdge(ParseEdges(raws, keys).value[i], ParseEdges(raws, keys).value[j])
  {
    if raws != [] {
      ParsedEdges(raws[..|raws| - 1], keys);
      var front := ParseEdges(raws[..|raws| - 1], keys).value;
      assert forall i | 0 <= i < |front| :: front[i] in front;
    }
  }

  lemma ParsedIsOk(value: Value)
    requires Parse(value).Some?
    ensures DocumentOk(Parse(value).value)
  {
    var meta := Get(value, "template").value;
    ParsedText(Get(meta, "id"));
    ParsedText(Get(meta, "name"));
    ParsedSlots(Get(value, "slots").value.items);
    ParsedEdges(Get(value, "edges").value.items, KeysOf(Parse(value).value.slots));
  }

  // Reading back what was written

  lemma SlotReadsBack(s: DocSlot)
    requires SlotOk(s)
    ensures ParseSlot(SlotJson(s)) == Some(s)
  {
    ProperText(s.key);
    ProperText(s.body.profileId);
    ProperText(s.body.agentName);
    var raw := SlotJson(s);
    assert Get(raw, "key") == Some(Str(s.key)) && Get(raw, "profileId") == Some(Str(s.body.profileId));
    assert Get(raw, "agentName") == Some(Str(s.body.agentName));
    assert Get(raw, "modelOverride") == Some(TextJson(s.body.modelOverride));
    assert Get(raw, "reasoningLevel") == Some(TextJson(s.body.reasoning));
    assert Get(raw, "layoutPosition") == Some(ValueOr(s.body.layout, Null));
    assert Get(raw, "display") == Some(ValueOr(s.body.display, Null));
  }

  lemma {:induction false} OneMoreSlot(raws: seq<Value>, front: seq<DocSlot>, s: DocSlot)
    requires ParseSlots(raws) == Some(front) && SlotOk(s) && s.key !in KeysOf(front)
    ensures ParseSlots(raws + [SlotJson(s)]) == Some(front + [s])
  {
    SlotReadsBack(s);
    var more := raws + [SlotJson(s)];
    assert more[..|more| - 1] == raws;
  }

  lemma LastSlot(slots: seq<DocSlot>)
    requires slots != [] && forall i, j | 0 <= i < j < |slots| :: slots[i].key != slots[j].key
    ensures var front, last := slots[..|slots| - 1], slots[|slots| - 1];
            && last.key !in KeysOf(front)
            && slots == front + [last] && SlotJsons(slots) == SlotJsons(front) + [SlotJson(last)]
  {
  }

  lemma {:induction false} SlotsReadBack(slots: seq<DocSlot>)
    requires forall s | s in slots :: SlotOk(s)
    requires forall i, j | 0 <= i < j < |slots| :: slots[i].key != slots[j].key
    ensures ParseSlots(SlotJsons(slots)) == Some(slots)
  {
    if slots != [] {
      var front, last := slots[..|slots| - 1], slots[|slots| - 1];
      SlotsReadBack(front);
      LastSlot(slots);
      OneMoreSlot(SlotJsons(front), front, last);
    }
  }

  lemma EdgeReadsBack(e: DocEdge, keys: set<string>)
    requires EdgeOk(e, keys)
    ensures ParseEdge(EdgeJson(e), keys) == Some(e)
  {
    var raw := EdgeJson(e);
    assert Get(raw, "sourceKind") == Some(e.sourceKind) && Get(raw, "targetKind") == Some(e.targetKind);
    assert Get(raw, "sourceKey") == Some(TextJson(e.sourceKey)) && Get(raw, "targetKey") == Some(TextJson(e.targetKey));
    assert Get(raw, "posture") == Some(Str(e.posture));
  }

  lemma OneMoreEdge(raws: seq<Value>, front: seq<DocEdge>, e: DocEdge, keys: set<string>)
    requires ParseEdges(raws, keys) == Some(front) && EdgeOk(e, keys) && forall f | f in front :: !SameEdge(f, e)
    ensures ParseEdges(raws + [EdgeJson(e)], keys) == Some(front + [e])
  {
    EdgeReadsBack(e, keys);
    var more := raws + [EdgeJson(e)];
    assert more[..|more| - 1] == raws;
  }

  lemma LastEdge(edges: seq<DocEdge>)
    requires edges != [] && forall i, j | 0 <= i < j < |edges| :: !SameEdge(edges[i], edges[j])
    ensures var front, last := edges[..|edges| - 1], edges[|edges| - 1];
            && (forall f | f in front :: !SameEdge(f, last))
            && edges == front + [last] && EdgeJsons(edges) == EdgeJsons(front) + [EdgeJson(last)]
  {
  }

  lemma {:induction false} EdgesReadBack(edges: seq<DocEdge>, keys: set<string>)
    requires forall e | e in edges :: EdgeOk(e, keys)
    requires forall i, j | 0 <= i < j < |edges| :: !SameEdge(edges[i], edges[j])
    ensures ParseEdges(EdgeJsons(edges), keys) == Some(edges)
  {
    if edges != [] {
      var front, last := edges[..|edges| - 1], edges[|edges| - 1];
      EdgesReadBack(front, keys);
      LastEdge(edges);
      OneMoreEdge(EdgeJsons(front), front, last, keys);
    }
  }

  /** What a parser finds in a written document. */
  ghost predicate Writes(v: Value, d: Document) {
    && v.Obj? && Get(v, "version") == Some(IntValue(1)) && Get(v, "kind") == Some(Str(KIND))
    && Get(v, "template").Some? && Get(v, "template").value.Obj?
    && Get(Get(v, "template").value, "id") == Some(Str(d.id))
    && Get(Get(v, "template").value, "name") == Some(Str(d.name))
    && Get(Get(v, "template").value, "userMd") == Some(TextJson(d.userMd))
    && Get(v, "slots") == Some(Arr(SlotJsons(d.slots)))
    && Get(v, "edges") == Some(Arr(EdgeJsons(d.edges)))
  }

  lemma ToJsonWrites(d: Document)
    ensures Writes(ToJson(d), d)
  {
  }

  lemma WrittenReadsBack(v: Value, d: Document)
    requires Writes(v, d) && DocumentOk(d)
    ensures Parse(v) == Some(d)
  {
    SlotsReadBack(d.slots);
    EdgesReadBack(d.edges, KeysOf(d.slots));
    ProperText(d.id);
    ProperText(d.name);
  }

  /** The parser gives back a written document unchanged exactly when the document is sound. */
  lemma {:induction false} ReadsBackExactlyWhenOk(d: Document)
    ensures Parse(ToJson(d)) == Some(d) <==> DocumentOk(d)
  {
    if Parse(ToJson(d)) == Some(d) {
      ParsedIsOk(ToJson(d));
    } else if DocumentOk(d) {
      ToJsonWrites(d);
      WrittenReadsBack(ToJson(d), d);
    }
  }

  /** Whatever parses, parsing the result again changes nothing. */
  lemma {:induction false} ParsingIsIdempotent(value: Value)
    requires Parse(value).Some?
    ensures Parse(ToJson(Parse(value).value)) == Parse(value)
  {
    ParsedIsOk(value);
    ReadsBackExactlyWhenOk(Parse(value).value);
  }

  /** What makes a slot sound, spelled out. */
  lemma SoundSlot(s: DocSlot)
    ensures SlotOk(s) <==>
            && IsProperText(s.key) && IsProperText(s.body.profileId) && IsProperText(s.body.agentName)
            && (s.body.reasoning.Some? ==>
                  s.body.reasoning.value in {"off", "minimal", "low", "medium", "high", "xhigh"})
            && (s.body.layout.Some? ==>
                  && s.body.layout.value.Obj?
                  && IsFinite(Get(s.body.layout.value, "x")) && IsFinite(Get(s.body.layout.value, "y")))
            && (s.body.display.Some? ==> s.body.display.value.Obj?)
  {
  }

  /** What makes an edge sound: kinds by their text, keys where there is a slot and only there, no self edge. */
  lemma SoundEdge(e: DocEdge, keys: set<string>)
    ensures EdgeOk(e, keys) <==>
            && KindText(e.sourceKind) in {Some("user"), Some("outside_team"), Some("slot")}
            && KindText(e.targetKind) in {Some("user"), Some("outside_team"), Some("slot")}
            && (if e.sourceKind == Str("slot") then e.sourceKey.Some? && e.sourceKey.value in keys - {""}
                else e.sourceKey == None)
            && (if e.targetKind == Str("slot") then e.targetKey.Some? && e.targetKey.value in keys - {""}
                else e.targetKey == None)
            && !(e.sourceKind == e.targetKind && e.sourceKey == e.targetKey)
            && e.posture in {"allow", "approval_required"}
  {
  }

  // What any value means

  ghost predicate MeansText(v: Option<Value>, s: string) {
    v.Some? && v.value.Str? && Trim(v.value.text) == s
  }

  /** Null and absent are one. */
  ghost predicate MeansNullable(v: Option<Value>, o: Option<string>) {
    if v.None? || v.value == Null then o == None else v.value.Str? && o == Some(v.value.text)
  }

  ghost predicate MeansValue(v: Option<Value>, o: Option<Value>) {
    if v.None? || v.value == Null then o == None else o == v
  }

  ghost predicate SlotMeans(raw: Value, s: DocSlot) {
    && raw.Obj? && MeansText(Get(raw, "key"), s.key)
    && MeansText(Get(raw, "profileId"), s.body.profileId) && MeansText(Get(raw, "agentName"), s.body.agentName)
    && MeansNullable(Get(raw, "modelOverride"), s.body.modelOverride)
    && MeansNullable(Get(raw, "reasoningLevel"), s.body.reasoning)
    && MeansValue(Get(raw, "layoutPosition"), s.body.layout) && MeansValue(Get(raw, "display"), s.body.display)
  }

  /** A posture that is absent is `allow`. */
  ghost predicate EdgeMeans(raw: Value, e: DocEdge) {
    && raw.Obj? && Get(raw, "sourceKind") == Some(e.sourceKind) && Get(raw, "targetKind") == Some(e.targetKind)
    && MeansNullable(Get(raw, "sourceKey"), e.sourceKey) && MeansNullable(Get(raw, "targetKey"), e.targetKey)
    && (if Get(raw, "posture").None? then e.posture == "allow" else Get(raw, "posture") == Some(Str(e.posture)))
  }

  ghost predicate SlotsMean(raws: seq<Value>, slots: seq<DocSlot>) {
    |raws| == |slots| && forall i | 0 <= i < |raws| :: SlotMeans(raws[i], slots[i])
  }

  ghost predicate EdgesMean(raws: seq<Value>, edges: seq<DocEdge>) {
    |raws| == |edges| && forall i | 0 <= i < |raws| :: EdgeMeans(raws[i], edges[i])
  }

  /** The value is a document of this version and kind, and says this of a template. */
  ghost predicate Means(value: Value, d: Document) {
    && value.Obj? && Get(value, "version") == Some(IntValue(1))
    && Get(value, "kind") == Some(Str("bazilion.team-template"))
    && (match Get(value, "template")
        case None => false
        case Some(meta) =>
          && meta.Obj? && MeansText(Get(meta, "id"), d.id) && MeansText(Get(meta, "name"), d.name)
          && MeansNullable(Get(meta, "userMd"), d.userMd))
    && (match Get(value, "slots") case Some(Arr(raws)) => SlotsMean(raws, d.slots) case _ => false)
    && (match Get(value, "edges") case Some(Arr(raws)) => EdgesMean(raws, d.edges) case _ => false)
  }

  lemma TextParses(v: Option<Value>, s: string)
    ensures ParseText(v) == Some(s) <==> MeansText(v, s) && IsProperText(s)
  {
    if v.Some? && v.value.Str? { TrimIsTrimmed(v.value.text); }
  }

  lemma NullableParses(v: Option<Value>, o: Option<string>)
    ensures IsNullableText(v) && NullableText(v) == o <==> MeansNullable(v, o)
  {
  }

  lemma SlotParses(raw: Value, s: DocSlot)
    ensures ParseSlot(raw) == Some(s) <==> SlotMeans(raw, s) && SlotOk(s)
  {
    TextParses(Get(raw, "key"), s.key);
    TextParses(Get(raw, "profileId"), s.body.profileId);
    TextParses(Get(raw, "agentName"), s.body.agentName);
    NullableParses(Get(raw, "modelOverride"), s.body.modelOverride);
  }

  lemma EdgeParses(raw: Value, e: DocEdge, keys: set<string>)
    ensures ParseEdge(raw, keys) == Some(e) <==> EdgeMeans(raw, e) && EdgeOk(e, keys)
  {
    NullableParses(Get(raw, "sourceKey"), e.sourceKey);
    NullableParses(Get(raw, "targetKey"), e.targetKey);
  }

  ghost predicate SlotsOk(slots: seq<DocSlot>) {
    (forall s | s in slots :: SlotOk(s)) && forall i, j | 0 <= i < j < |slots| :: slots[i].key != slots[j].key
  }

  ghost predicate EdgesOk(edges: seq<DocEdge>, keys: set<string>) {
    (forall e | e in edges :: EdgeOk(e, keys)) && forall i, j | 0 <= i < j < |edges| :: !SameEdge(edges[i], edges[j])
  }

  lemma SlotsFrontOk(slots: seq<DocSlot>, last: DocSlot)
    ensures SlotsOk(slots + [last]) <==> SlotsOk(slots) && SlotOk(last) && last.key !in KeysOf(slots)
  {
    var all := slots + [last];
    assert all[|slots|] == last && forall i | 0 <= i < |slots| :: all[i] == slots[i];
    if SlotsOk(all) {
      forall s | s in slots ensures SlotOk(s) && s.key != last.key { assert s in all; }
      assert last in all;
    }
    if SlotsOk(slots) && SlotOk(last) && last.key !in KeysOf(slots) {
      forall i, j | 0 <= i < j < |all| ensures all[i].key != all[j].key {
        if j == |slots| { assert slots[i].key in KeysOf(slots); }
      }
    }
  }

  lemma {:induction false} SlotsParse(raws: seq<Value>, slots: seq<DocSlot>)
    ensures ParseSlots(raws) == Some(slots) <==> SlotsMean(raws, slots) && SlotsOk(slots)
  {
    if raws != [] && slots != [] {
      var front, last := slots[..|slots| - 1], slots[|slots| - 1];
      assert slots == front + [last];
      SlotsParse(raws[..|raws| - 1], front);
      SlotParses(raws[|raws| - 1], last);
      SlotsFrontOk(front, last);
      SlotsMeanMore(raws, front, last);
    }
  }

  lemma SlotsMeanMore(raws: seq<Value>, front: seq<DocSlot>, last: DocSlot)
    requires raws != []
    ensures SlotsMean(raws, front + [last]) <==>
            SlotsMean(raws[..|raws| - 1], front) && SlotMeans(raws[|raws| - 1], last)
  {
    var all := front + [last];
    assert all[|front|] == last && forall i | 0 <= i < |front| :: all[i] == front[i];
    if SlotsMean(raws, all) {
      forall i | 0 <= i < |raws| - 1 ensures SlotMeans(raws[..|raws| - 1][i], front[i]) {
        assert SlotMeans(raws[i], all[i]);
      }
    }
  }

  lemma EdgesFrontOk(edges: seq<DocEdge>, last: DocEdge, keys: set<string>)
    ensures EdgesOk(edges + [last], keys) <==>
            EdgesOk(edges, keys) && EdgeOk(last, keys) && !exists e :: e in edges && SameEdge(e, last)
  {
    var all := edges + [last];
    assert all[|edges|] == last && forall i | 0 <= i < |edges| :: all[i] == edges[i];
    if EdgesOk(all, keys) {
      forall e | e in edges ensures EdgeOk(e, keys) && !SameEdge(e, last) {
        assert e in all;
        var i :| 0 <= i < |edges| && edges[i] == e;
        assert !SameEdge(all[i], all[|edges|]);
      }
      assert last in all;
    }
  }

  lemma EdgesMeanMore(raws: seq<Value>, front: seq<DocEdge>, last: DocEdge)
    requires raws != []
    ensures EdgesMean(raws, front + [last]) <==>
            EdgesMean(raws[..|raws| - 1], front) && EdgeMeans(raws[|raws| - 1], last)
  {
    var all := front + [last];
    assert all[|front|] == last && forall i | 0 <= i < |front| :: all[i] == front[i];
    if EdgesMean(raws, all) {
      forall i | 0 <= i < |raws| - 1 ensures EdgeMeans(raws[..|raws| - 1][i], front[i]) {
        assert EdgeMeans(raws[i], all[i]);
      }
    }
  }

  lemma {:induction false} EdgesParse(raws: seq<Value>, edges: seq<DocEdge>, keys: set<string>)
    ensures ParseEdges(raws, keys) == Some(edges) <==> EdgesMean(raws, edges) && EdgesOk(edges, keys)
  {
    if raws != [] && edges != [] {
      var front, last := edges[..|edges| - 1], edges[|edges| - 1];
      assert edges == front + [last];
      EdgesParse(raws[..|raws| - 1], front, keys);
      EdgeParses(raws[|raws| - 1], last, keys);
      EdgesFrontOk(front, last, keys);
      EdgesMeanMore(raws, front, last);
    }
  }

  /** A value is read as a document exactly when it means that document and the document is sound. */
  lemma {:induction false} ParsedExactlyWhen(value: Value, d: Document)
    ensures Parse(value) == Some(d) <==> Means(value, d) && DocumentOk(d)
  {
    if value.Obj? && Get(value, "template").Some? && Get(value, "slots").Some? && Get(value, "edges").Some? {
      var meta, rawSlots, rawEdges :=
        Get(value, "template").value, Get(value, "slots").value, Get(value, "edges").value;
      TextParses(Get(meta, "id"), d.id);
      TextParses(Get(meta, "name"), d.name);
      NullableParses(Get(meta, "userMd"), d.userMd);
      if rawSlots.Arr? && rawEdges.Arr? {
        SlotsParse(rawSlots.items, d.slots);
        EdgesParse(rawEdges.items, d.edges, KeysOf(d.slots));
      }
    }
  }

  // Exporting, and back

  predicate EndpointWellFormed(t: Template, kind: string, id: Option<string>) {
    if kind == "slot" then id.Some? && exists s :: s in t.slots && s.slotId == id.value
    else kind in KINDS && id.None?
  }

  /** What the daemon guarantees of a stored template. */
  predicate WellFormed(t: Template) {
    && IsProperText(t.id) && IsProperText(t.name)
    && (forall s | s in t.slots :: SlotOk(DocSlot("k", s.body)))
    && (forall i, j | 0 <= i < j < |t.slots| ::
          t.slots[i].slotId != t.slots[j].slotId && t.slots[i].position != t.slots[j].position)
    && (forall e | e in t.edges ::
          && EndpointWellFormed(t, e.sourceKind, e.sourceId) && EndpointWellFormed(t, e.targetKind, e.targetId)
          && (e.sourceKind, e.sourceId) != (e.targetKind, e.targetId)
          && (e.posture == "allow" || e.posture == "approval_required"))
    && (forall i, j | 0 <= i < j < |t.edges| ::
          (t.edges[i].sourceKind, t.edges[i].sourceId, t.edges[i].targetKind, t.edges[i].targetId)
          != (t.edges[j].sourceKind, t.edges[j].sourceId, t.edges[j].targetKind, t.edges[j].targetId))
  }

  lemma PositionKeyProper(p: nat)
    ensures IsProperText(PositionKey(p))
  {
    var digits := InboxIdentity.Decimal(p + 1);
    var key := PositionKey(p);
    assert key[0] == 's' && key[|key| - 1] == digits[|digits| - 1] as char;
  }

  lemma PositionKeyInjective(p: nat, q: nat)
    requires PositionKey(p) == PositionKey(q)
    ensures p == q
  {
    var d, e := InboxIdentity.Decimal(p + 1), InboxIdentity.Decimal(q + 1);
    assert |PositionKey(p)| == 5 + |d| && |PositionKey(q)| == 5 + |e|;
    forall i | 0 <= i < |d| ensures d[i] == e[i] {
      assert PositionKey(p)[5 + i] == d[i] as char && PositionKey(q)[5 + i] == e[i] as char;
    }
    assert d == e;
    InboxIdentity.DecimalInjective(p + 1, q + 1);
  }

  lemma {:induction false} LookupAt(pairs: seq<(string, string)>, k: nat)
    requires k < |pairs| && forall i, j | 0 <= i < j < |pairs| :: pairs[i].0 != pairs[j].0
    ensures Lookup(pairs, pairs[k].0) == Some(pairs[k].1)
  {
    if k < |pairs| - 1 { LookupAt(pairs[..|pairs| - 1], k); }
  }

  lemma SlotKey(t: Template, k: nat)
    requires WellFormed(t) && k < |t.slots|
    ensures Lookup(KeysById(t.slots), t.slots[k].slotId) == Some(PositionKey(t.slots[k].position))
    ensures ExportTeamDocument(t).slots[k].key == PositionKey(t.slots[k].position)
  {
    LookupAt(KeysById(t.slots), k);
  }

  /** An exported endpoint names the slot it came from. */
  lemma EndpointExported(t: Template, kind: string, id: Option<string>) returns (k: nat)
    requires WellFormed(t) && kind == "slot" && EndpointWellFormed(t, kind, id)
    ensures k < |t.slots| && id == Some(t.slots[k].slotId)
            && EndpointKey(t, kind, id) == Some(PositionKey(t.slots[k].position))
  {
    var s :| s in t.slots && s.slotId == id.value;
    k :| 0 <= k < |t.slots| && t.slots[k] == s;
    SlotKey(t, k);
  }

  lemma EndpointIsOk(t: Template, kind: string, id: Option<string>)
    requires WellFormed(t) && EndpointWellFormed(t, kind, id)
    ensures EndpointOk(Str(kind), EndpointKey(t, kind, id), KeysOf(ExportTeamDocument(t).slots))
            && IsKind(Some(Str(kind)))
  {
    if kind == "slot" {
      var k := EndpointExported(t, kind, id);
      SlotKey(t, k);
      PositionKeyProper(t.slots[k].position);
      assert ExportTeamDocument(t).slots[k] in ExportTeamDocument(t).slots;
    }
  }

  lemma EndpointInjective(t: Template, kind1: string, id1: Option<string>, kind2: string, id2: Option<string>)
    requires WellFormed(t) && EndpointWellFormed(t, kind1, id1) && EndpointWellFormed(t, kind2, id2)
    requires kind1 == kind2 && EndpointKey(t, kind1, id1) == EndpointKey(t, kind2, id2)
    ensures id1 == id2
  {
    if kind1 == "slot" {
      var k1 := EndpointExported(t, kind1, id1);
      var k2 := EndpointExported(t, kind2, id2);
      PositionKeyInjective(t.slots[k1].position, t.slots[k2].position);
    }
  }

  lemma ExportedSlots(t: Template)
    requires WellFormed(t)
    ensures var d := ExportTeamDocument(t);
            && (forall s | s in d.slots :: SlotOk(s))
            && (forall i, j | 0 <= i < j < |d.slots| :: d.slots[i].key != d.slots[j].key)
  {
    var d := ExportTeamDocument(t);
    forall k | 0 <= k < |d.slots| ensures SlotOk(d.slots[k]) {
      SlotKey(t, k);
      PositionKeyProper(t.slots[k].position);
      assert t.slots[k] in t.slots;
    }
    forall i, j | 0 <= i < j < |d.slots| ensures d.slots[i].key != d.slots[j].key {
      SlotKey(t, i);
      SlotKey(t, j);
      if d.slots[i].key == d.slots[j].key { PositionKeyInjective(t.slots[i].position, t.slots[j].position); }
    }
  }

  lemma ExportedEdge(t: Template, k: nat)
    requires WellFormed(t) && k < |t.edges|
    ensures EdgeOk(ExportTeamDocument(t).edges[k], KeysOf(ExportTeamDocument(t).slots))
  {
    var e := t.edges[k];
    assert e in t.edges;
    EndpointIsOk(t, e.sourceKind, e.sourceId);
    EndpointIsOk(t, e.targetKind, e.targetId);
    if e.sourceKind == e.targetKind
       && EndpointKey(t, e.sourceKind, e.sourceId) == EndpointKey(t, e.targetKind, e.targetId) {
      EndpointInjective(t, e.sourceKind, e.sourceId, e.targetKind, e.targetId);
    }
  }

  lemma ExportedEdgesDiffer(t: Template, i: nat, j: nat)
    requires WellFormed(t) && i < j < |t.edges|
    ensures !SameEdge(ExportTeamDocument(t).edges[i], ExportTeamDocument(t).edges[j])
  {
    var e, f := t.edges[i], t.edges[j];
    assert e in t.edges && f in t.edges;
    if SameEdge(ExportTeamDocument(t).edges[i], ExportTeamDocument(t).edges[j]) {
      EndpointInjective(t, e.sourceKind, e.sourceId, f.sourceKind, f.sourceId);
      EndpointInjective(t, e.targetKind, e.targetId, f.targetKind, f.targetId);
    }
  }

  /** Parsing the export of a stored template yields the exported document. */
  lemma {:induction false} ExportParses(t: Template)
    requires WellFormed(t)
    ensures Parse(ToJson(ExportTeamDocument(t))) == Some(ExportTeamDocument(t))
  {
    var d := ExportTeamDocument(t);
    ExportedSlots(t);
    forall e | e in d.edges ensures EdgeOk(e, KeysOf(d.slots)) {
      var k :| 0 <= k < |d.edges| && d.edges[k] == e;
      ExportedEdge(t, k);
    }
    forall i, j | 0 <= i < j < |d.edges| ensures !SameEdge(d.edges[i], d.edges[j]) { ExportedEdgesDiffer(t, i, j); }
    ReadsBackExactlyWhenOk(d);
  }

  // Importing

  datatype SlotInput = SlotInput(slotId: Option<string>, clientKey: Option<string>, body: SlotBody)

  /** An id is absent when it is null and when the look-up finds nothing. */
  datatype EdgeInput = EdgeInput(
    sourceKind: Value, sourceId: Option<string>, targetKind: Value, targetId: Option<string>, posture: string)

  datatype ImportBody = ImportBody(slots: seq<SlotInput>, edges: seq<EdgeInput>)

  function IdsByKey(slots: seq<TemplateSlot>): seq<(string, string)> {
    seq(|slots|, i requires 0 <= i < |slots| => (PositionKey(slots[i].position), slots[i].slotId))
  }

  function ImportSlot(s: DocSlot, existing: Option<Template>): SlotInput {
    var id := if existing.Some? then Lookup(IdsByKey(existing.value.slots), s.key) else None;
    if id.Some? then SlotInput(id, None, s.body) else SlotInput(None, Some(s.key), s.body)
  }

  /** How an edge of the import refers to the slot. */
  function NameOf(s: SlotInput): Option<string> {
    if s.slotId.Some? then s.slotId else s.clientKey
  }

  function NamesByKey(d: Document, existing: Option<Template>): seq<(string, string)> {
    seq(|d.slots|, i requires 0 <= i < |d.slots| =>
      (d.slots[i].key, ValueOr(NameOf(ImportSlot(d.slots[i], existing)), "")))
  }

  function ImportEndpoint(d: Document, existing: Option<Template>, kind: Value, key: Option<string>): Option<string> {
    if kind == SLOT then Lookup(NamesByKey(d, existing), ValueOr(key, "")) else None
  }

  function TeamImportBody(d: Document, existing: Option<Template>): ImportBody {
    ImportBody(
      seq(|d.slots|, i requires 0 <= i < |d.slots| => ImportSlot(d.slots[i], existing)),
      seq(|d.edges|, i requires 0 <= i < |d.edges| =>
        EdgeInput(d.edges[i].sourceKind, ImportEndpoint(d, existing, d.edges[i].sourceKind, d.edges[i].sourceKey),
                  d.edges[i].targetKind, ImportEndpoint(d, existing, d.edges[i].targetKind, d.edges[i].targetKey),
                  d.edges[i].posture)))
  }

  lemma ImportedSlot(t: Template, k: nat)
    requires WellFormed(t) && k < |t.slots|
    ensures ImportSlot(ExportTeamDocument(t).slots[k], Some(t))
            == SlotInput(Some(t.slots[k].slotId), None, t.slots[k].body)
  {
    SlotKey(t, k);
    var pairs := IdsByKey(t.slots);
    forall i, j | 0 <= i < j < |pairs| ensures pairs[i].0 != pairs[j].0 {
      if pairs[i].0 == pairs[j].0 { PositionKeyInjective(t.slots[i].position, t.slots[j].position); }
    }
    LookupAt(pairs, k);
  }

  lemma ImportedEndpoint(t: Template, kind: string, id: Option<string>)
    requires WellFormed(t) && EndpointWellFormed(t, kind, id)
    ensures ImportEndpoint(ExportTeamDocument(t), Some(t), Str(kind), EndpointKey(t, kind, id)) == id
  {
    if kind == "slot" {
      var d := ExportTeamDocument(t);
      var k := EndpointExported(t, kind, id);
      SlotKey(t, k);
      ImportedSlot(t, k);
      ExportedSlots(t);
      LookupAt(NamesByKey(d, Some(t)), k);
    }
  }

  /** The key of a document slot is that of the slot at this position. */
  ghost predicate KeyedAt(t: Template, key: string, k: int) {
    0 <= k < |t.slots| && key == PositionKey(t.slots[k].position)
  }

  lemma {:induction false} LookupFinds(pairs: seq<(string, string)>, key: string)
    ensures Lookup(pairs, key).Some? <==> exists k :: 0 <= k < |pairs| && pairs[k].0 == key
  {
    if pairs != [] {
      LookupFinds(pairs[..|pairs| - 1], key);
      assert forall k | 0 <= k < |pairs| - 1 :: pairs[..|pairs| - 1][k] == pairs[k];
    }
  }

  /**
   What an import sends of a slot is the document's own text of it, whatever the template says; it goes
   to the slot of the template with its key, if there is one, and is otherwise a new slot under its key.
   */
  lemma ImportedAsWritten(d: Document, existing: Option<Template>, i: nat)
    requires i < |d.slots|
    ensures var body := TeamImportBody(d, existing);
            var s := d.slots[i];
            && |body.slots| == |d.slots| && body.slots[i].body == s.body
            && (body.slots[i].slotId.Some? <==> exists k :: existing.Some? && KeyedAt(existing.value, s.key, k))
            && (body.slots[i].slotId.Some? ==>
                  && body.slots[i].clientKey == None
                  && exists k :: KeyedAt(existing.value, s.key, k)
                                 && body.slots[i].slotId == Some(existing.value.slots[k].slotId))
            && (body.slots[i].slotId == None ==> body.slots[i].clientKey == Some(s.key))
  {
    if existing.Some? {
      var pairs := IdsByKey(existing.value.slots);
      LookupFinds(pairs, d.slots[i].key);
      assert forall k :: KeyedAt(existing.value, d.slots[i].key, k) ==> pairs[k].0 == d.slots[i].key;
      if Lookup(pairs, d.slots[i].key).Some? {
        var k := LookupFrom(pairs, d.slots[i].key);
        assert KeyedAt(existing.value, d.slots[i].key, k);
      }
    }
  }

  /** So are its edges; an endpoint that is no slot has no id. */
  lemma ImportedEdgesAsWritten(d: Document, existing: Option<Template>, i: nat)
    requires i < |d.edges|
    ensures var body := TeamImportBody(d, existing);
            var e, f := d.edges[i], body.edges[i];
            && |body.edges| == |d.edges|
            && f.sourceKind == e.sourceKind && f.targetKind == e.targetKind && f.posture == e.posture
            && (e.sourceKind != Str("slot") ==> f.sourceId == None)
            && (e.targetKind != Str("slot") ==> f.targetId == None)
  {
  }

  /** Importing the export of a template over that template restores every slot and every edge. */
  lemma {:induction false} ImportRestores(t: Template)
    requires WellFormed(t)
    ensures var body := TeamImportBody(ExportTeamDocument(t), Some(t));
            && |body.slots| == |t.slots| && |body.edges| == |t.edges|
            && (forall k | 0 <= k < |t.slots| ::
                  body.slots[k] == SlotInput(Some(t.slots[k].slotId), None, t.slots[k].body))
            && (forall k | 0 <= k < |t.edges| ::
                  body.edges[k] == EdgeInput(Str(t.edges[k].sourceKind), t.edges[k].sourceId,
                                             Str(t.edges[k].targetKind), t.edges[k].targetId, t.edges[k].posture))
  {
    forall k | 0 <= k < |t.slots|
      ensures TeamImportBody(ExportTeamDocument(t), Some(t)).slots[k]
              == SlotInput(Some(t.slots[k].slotId), None, t.slots[k].body)
    {
      ImportedSlot(t, k);
    }
    forall k | 0 <= k < |t.edges|
      ensures TeamImportBody(ExportTeamDocument(t), Some(t)).edges[k]
              == EdgeInput(Str(t.edges[k].sourceKind), t.edges[k].sourceId,
                           Str(t.edges[k].targetKind), t.edges[k].targetId, t.edges[k].posture)
    {
      assert t.edges[k] in t.edges;
      ImportedEndpoint(t, t.edges[k].sourceKind, t.edges[k].sourceId);
      ImportedEndpoint(t, t.edges[k].targetKind, t.edges[k].targetId);
    }
  }

  /** Of any sound document, over any template or none: an endpoint has the name of the slot with its key. */
  lemma ImportedEndpointsResolve(d: Document, existing: Option<Template>, kind: Value, key: Option<string>)
    returns (k: nat)
    requires DocumentOk(d) && kind == SLOT && EndpointOk(kind, key, KeysOf(d.slots))
    ensures k < |d.slots| && key == Some(d.slots[k].key)
    ensures ImportEndpoint(d, existing, kind, key) == NameOf(TeamImportBody(d, existing).slots[k])
    ensures NameOf(TeamImportBody(d, existing).slots[k]).Some?
  {
    var s :| s in d.slots && s.key == key.value;
    k :| 0 <= k < |d.slots| && d.slots[k] == s;
    LookupAt(NamesByKey(d, existing), k);
  }

  // Which slot a name is of

  /** What the daemon's tables guarantee of the template imported over. */
  predicate IdsDistinct(existing: Option<Template>) {
    existing.Some? ==> forall i, j | 0 <= i < j < |existing.value.slots| ::
                         existing.value.slots[i].slotId != existing.value.slots[j].slotId
  }

  /** The slot id a document slot is given, if its key is that of a slot already there. */
  function IdOf(d: Document, existing: Option<Template>, i: nat): Option<string>
    requires i < |d.slots|
  {
    ImportSlot(d.slots[i], existing).slotId
  }

  function NameAt(d: Document, existing: Option<Template>, i: nat): Option<string>
    requires i < |d.slots|
  {
    NameOf(ImportSlot(d.slots[i], existing))
  }

  /** A key that stays a client key is the slot id that another key is given. */
  ghost predicate Clash(d: Document, existing: Option<Template>) {
    exists i, j :: 0 <= i < |d.slots| && 0 <= j < |d.slots|
                   && IdOf(d, existing, i) == Some(d.slots[j].key) && IdOf(d, existing, j) == None
  }

  ghost predicate NamesDistinct(d: Document, existing: Option<Template>) {
    forall i, j | 0 <= i < j < |d.slots| :: NameAt(d, existing, i) != NameAt(d, existing, j)
  }

  lemma {:induction false} LookupFrom(pairs: seq<(string, string)>, key: string) returns (k: nat)
    requires Lookup(pairs, key).Some?
    ensures k < |pairs| && pairs[k] == (key, Lookup(pairs, key).value)
  {
    if pairs[|pairs| - 1].0 == key {
      k := |pairs| - 1;
    } else {
      k := LookupFrom(pairs[..|pairs| - 1], key);
    }
  }

  /** Two different keys are never given one slot id. */
  lemma GivenIdsDiffer(d: Document, existing: Option<Template>, i: nat, j: nat)
    requires i < |d.slots| && j < |d.slots| && d.slots[i].key != d.slots[j].key && IdsDistinct(existing)
    requires IdOf(d, existing, i).Some?
    ensures IdOf(d, existing, i) != IdOf(d, existing, j)
  {
    if IdOf(d, existing, j).Some? {
      var pairs := IdsByKey(existing.value.slots);
      var m := LookupFrom(pairs, d.slots[i].key);
      var n := LookupFrom(pairs, d.slots[j].key);
      assert existing.value.slots[m].slotId != existing.value.slots[n].slotId;
    }
  }

  /**
   The imported slots have names of their own exactly when no document key that is new to the
   template is the slot id that another document key is given.
   */
  lemma NamesDistinctExactlyWhen(d: Document, existing: Option<Template>)
    requires DocumentOk(d) && IdsDistinct(existing)
    ensures NamesDistinct(d, existing) <==> !Clash(d, existing)
  {
    if Clash(d, existing) {
      var i, j :| 0 <= i < |d.slots| && 0 <= j < |d.slots|
                  && IdOf(d, existing, i) == Some(d.slots[j].key) && IdOf(d, existing, j) == None;
      assert NameAt(d, existing, i) == NameAt(d, existing, j) && i != j;
    } else {
      forall i, j | 0 <= i < j < |d.slots| ensures NameAt(d, existing, i) != NameAt(d, existing, j) {
        if IdOf(d, existing, i).Some? {
          GivenIdsDiffer(d, existing, i, j);
        } else if IdOf(d, existing, j).Some? {
          GivenIdsDiffer(d, existing, j, i);
        }
      }
    }
  }

  /** An endpoint then names the one slot with its key, and no other. */
  lemma EndpointNamesOneSlot(d: Document, existing: Option<Template>, kind: Value, key: Option<string>, k: nat)
    requires DocumentOk(d) && IdsDistinct(existing) && !Clash(d, existing)
    requires kind == SLOT && EndpointOk(kind, key, KeysOf(d.slots)) && k < |d.slots|
    ensures ImportEndpoint(d, existing, kind, key) == NameAt(d, existing, k) <==> key == Some(d.slots[k].key)
  {
    NamesDistinctExactlyWhen(d, existing);
    var m := ImportedEndpointsResolve(d, existing, kind, key);
    assert m < k ==> NameAt(d, existing, m) != NameAt(d, existing, k);
    assert k < m ==> NameAt(d, existing, k) != NameAt(d, existing, m);
  }

  /** Over a first slot with id `X`, a document with the keys `slot-1` and `X` names both of its slots `X`. */
  lemma TwoSlotsOneName(body: SlotBody)
    requires SlotOk(DocSlot("X", body))
    ensures var d := Document("t", "t", None, [DocSlot("slot-1", body), DocSlot("X", body)], []);
            var existing := Some(Template("t", "t", None, [TemplateSlot("X", 0, body)], []));
            && DocumentOk(d) && IdsDistinct(existing) && Clash(d, existing)
            && NameAt(d, existing, 0) == NameAt(d, existing, 1) == Some("X")
  {
    var d := Document("t", "t", None, [DocSlot("slot-1", body), DocSlot("X", body)], []);
    var existing := Some(Template("t", "t", None, [TemplateSlot("X", 0, body)], []));
    FirstKey();
    assert IdsByKey(existing.value.slots) == [("slot-1", "X")];
    assert Lookup([("slot-1", "X")], "X") == Lookup([], "X") by { assert [("slot-1", "X")][..0] == []; }
    assert IdOf(d, existing, 0) == Some(d.slots[1].key) && IdOf(d, existing, 1) == None;
  }

  lemma FirstKey()
    ensures PositionKey(0) == "slot-1"
  {
    assert InboxIdentity.Decimal(1) == [49];
    assert PositionKey(0) == "slot-" + ['1'];
  }

  // Kinds that are not text

  ghost predicate KindIsText(raw: Value) {
    Get(raw, "sourceKind").Some? && Get(raw, "sourceKind").value.Str?
    && Get(raw, "targetKind").Some? && Get(raw, "targetKind").value.Str?
  }

  predicate Proper(e: DocEdge) {
    e.sourceKind.Str? && e.sourceKind.text in KINDS && e.targetKind.Str? && e.targetKind.text in KINDS
  }

  /** The parser checks the text of a kind, so it lets an array of one kind through as a kind. */
  lemma KindsAreTextExactlyWhen(raw: Value, keys: set<string>)
    requires ParseEdge(raw, keys).Some?
    ensures Proper(ParseEdge(raw, keys).value) <==> KindIsText(raw)
  {
  }

  lemma ArrayKindAccepted(keys: set<string>)
    ensures var raw := Obj(map["sourceKind" := Arr([Str("slot")]), "targetKind" := Str("user")]);
            ParseEdge(raw, keys) == Some(DocEdge(Arr([Str("slot")]), None, Str("user"), None, "allow"))
  {
    var raw := Obj(map["sourceKind" := Arr([Str("slot")]), "targetKind" := Str("user")]);
    assert Get(raw, "sourceKind") == Some(Arr([Str("slot")])) && Get(raw, "targetKind") == Some(Str("user"));
    assert KindText(Arr([Str("slot")])) == KindText(Str("slot"));
    assert Get(raw, "posture").None? && Get(raw, "sourceKey").None? && Get(raw, "targetKey").None?;
  }
}
