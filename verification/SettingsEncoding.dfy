/**
  The byte encoding that is hashed into a settings-capability fingerprint, by the protocol codec and
  by the ACP mapper, with the decoder that inverts it.
*/
module SettingsEncoding {
  import opened Wrappers
  import opened ByteEncoding

  datatype Choice = Choice(id: Bytes, title: Bytes)

  datatype Capability = Capability(
    version: nat,
    models: seq<Choice>, efforts: seq<Choice>, modes: seq<Choice>,
    model: Bytes, effort: Option<Bytes>, mode: Bytes,
    modelChange: Bytes, effortChange: Bytes, modeChange: Bytes,
    modelReason: Option<Bytes>, effortReason: Option<Bytes>, modeReason: Option<Bytes>)

  // ---- The encoding ----

  function Flatten(choices: seq<Choice>): (items: seq<Bytes>)
    ensures |items| == 2 * |choices|
  {
    if choices == [] then [] else [choices[0].id, choices[0].title] + Flatten(choices[1..])
  }

  function PutChoices(choices: seq<Choice>, rest: Bytes): Bytes {
    PutNumber(|choices|, 1, PutStrings(Flatten(choices), rest))
  }

  function ModeByte(mode: Bytes): nat {
    if mode == "allowed" then 1 else if mode == "unsupported" then 2 else 0
  }

  /** The version that is encoded: an unset one counts as the legacy version. */
  function Version(c: Capability): nat {
    if c.version == 0 then 1 else c.version
  }

  function Lists(c: Capability, rest: Bytes): Bytes {
    var modes := PutChoices(c.modes, rest);
    PutChoices(c.models, if Version(c) >= 2 then PutChoices(c.efforts, modes) else modes)
  }

  function Effective(c: Capability, rest: Bytes): Bytes {
    var mode := PutString(c.mode, rest);
    PutString(c.model, if Version(c) >= 2 then PutString(OrEmpty(c.effort), mode) else mode)
  }

  function Changes(c: Capability, rest: Bytes): Bytes {
    var mode := PutNumber(ModeByte(c.modeChange), 1, rest);
    var effort := if Version(c) >= 2 then PutNumber(ModeByte(c.effortChange), 1, mode) else mode;
    PutNumber(ModeByte(c.modelChange), 1, effort)
  }

  function Reasons(c: Capability, rest: Bytes): Bytes {
    var mode := PutString(OrEmpty(c.modeReason), rest);
    PutString(OrEmpty(c.modelReason), if Version(c) >= 2 then PutString(OrEmpty(c.effortReason), mode) else mode)
  }

  function Digits(n: nat): Bytes {
    if n < 10 then ['0' + n as char] else Digits(n / 10) + ['0' + (n % 10) as char]
  }

  function Header(version: nat): Bytes {
    "agentwharf.settings-capability.v" + Digits(version)
  }

  function Encoding(c: Capability): Bytes {
    Header(Version(c)) + PutNumber(0, 1, PutNumber(Version(c), 1, Lists(c, Effective(c, Changes(c, Reasons(c, ""))))))
  }

  // ---- The decoder ----

  function Pairs(items: seq<Bytes>): seq<Choice> {
    if |items| < 2 then [] else [Choice(items[0], items[1])] + Pairs(items[2..])
  }

  function GetChoices(data: Bytes): Parsed<seq<Choice>> {
    var count := GetNumber(1, data);
    if count.Failed? then Failed
    else
      var items := GetStrings(2 * count.value, count.rest);
      if items.Failed? then Failed else Parsed(Pairs(items.value), items.rest)
  }

  function ModeName(n: nat): Bytes {
    if n == 1 then "allowed" else if n == 2 then "unsupported" else "read_only"
  }

  function GetMode(data: Bytes): Parsed<Bytes> {
    var n := GetNumber(1, data);
    if n.Failed? then Failed else Parsed(ModeName(n.value), n.rest)
  }

  /** Three values in a row, the middle one only from the second version on. */
  function Triple<T>(two: bool, get: Bytes -> Parsed<T>, absent: T, data: Bytes): Parsed<(T, T, T)> {
    var a := get(data);
    if a.Failed? then Failed
    else
      var b := if two then get(a.rest) else Parsed(absent, a.rest);
      if b.Failed? then Failed
      else
        var c := get(b.rest);
        if c.Failed? then Failed else Parsed((a.value, b.value, c.value), c.rest)
  }

  function DecodeBody(version: nat, data: Bytes): Option<Capability> {
    var two := version >= 2;
    var lists := Triple(two, GetChoices, [], data);
    if lists.Failed? then None
    else
      var ids := Triple(two, GetString, "", lists.rest);
      if ids.Failed? then None
      else
        var changes := Triple(two, GetMode, "", ids.rest);
        if changes.Failed? then None
        else
          var reasons := Triple(two, GetString, "", changes.rest);
          if reasons.Failed? || reasons.rest != "" then None
          else
            Some(Capability(version, lists.value.0, lists.value.1, lists.value.2,
                            ids.value.0, NonEmpty(ids.value.1), ids.value.2,
                            changes.value.0, changes.value.1, changes.value.2,
                            NonEmpty(reasons.value.0), NonEmpty(reasons.value.1), NonEmpty(reasons.value.2)))
  }

  function Preamble(version: nat): Bytes {
    Header(version) + [Byte(0), Byte(version)]
  }

  function Decode(data: Bytes): Option<Capability> {
    if Preamble(1) <= data then DecodeBody(1, data[|Preamble(1)|..])
    else if Preamble(2) <= data then DecodeBody(2, data[|Preamble(2)|..])
    else None
  }

  // ---- Valid capabilities ----

  predicate ValidChange(change: Bytes) {
    change == "allowed" || change == "read_only" || change == "unsupported"
  }

  ghost predicate ValidChoices(choices: seq<Choice>, max: nat) {
    |choices| <= max && forall i :: 0 <= i < |choices| ==> 1 <= |choices[i].id| <= 128 && 1 <= |choices[i].title| <= 128
  }

  predicate ValidReason(reason: Option<Bytes>) {
    reason.Some? ==> 1 <= |reason.value| <= 64
  }

  /**
    What the validators guarantee of a decoded capability, as far as lengths, counts and modes go; the
    alphabet and order of identifiers are not needed here.
  */
  ghost predicate Valid(c: Capability) {
    && (c.version == 1 || c.version == 2)
    && ValidChoices(c.models, 32) && ValidChoices(c.efforts, 16) && ValidChoices(c.modes, 16)
    && 1 <= |c.model| <= 128 && 1 <= |c.mode| <= 128 && (c.effort.Some? ==> 1 <= |c.effort.value| <= 128)
    && ValidChange(c.modelChange) && ValidChange(c.modeChange)
    && ValidReason(c.modelReason) && ValidReason(c.effortReason) && ValidReason(c.modeReason)
    && (c.version == 1 ==> c.efforts == [] && c.effort == None && c.effortChange == "" && c.effortReason == None)
    && (c.version == 2 ==> ValidChange(c.effortChange))
  }

  // ---- The decoder inverts the encoding ----

  lemma {:induction false} PairsOfFlatten(choices: seq<Choice>)
    ensures Pairs(Flatten(choices)) == choices
  {
    if choices != [] {
      var items := Flatten(choices);
      assert items[2..] == Flatten(choices[1..]);
      PairsOfFlatten(choices[1..]);
    }
  }

  lemma {:induction false} FlattenShort(choices: seq<Choice>, max: nat)
    requires ValidChoices(choices, max)
    ensures Short(Flatten(choices))
  {
    if choices != [] {
      FlattenShort(choices[1..], max);
    }
  }

  lemma GetPutChoices(choices: seq<Choice>, max: nat, rest: Bytes)
    requires ValidChoices(choices, max) && max < 256
    ensures GetChoices(PutChoices(choices, rest)) == Parsed(choices, rest)
  {
    Powers();
    FlattenShort(choices, max);
    PairsOfFlatten(choices);
    GetPutNumber(|choices|, 1, PutStrings(Flatten(choices), rest));
    GetPutStrings(Flatten(choices), rest);
  }

  lemma GetPutMode(change: Bytes, rest: Bytes)
    requires ValidChange(change)
    ensures GetMode(PutNumber(ModeByte(change), 1, rest)) == Parsed(change, rest)
  {
    Powers();
    GetPutNumber(ModeByte(change), 1, rest);
  }

  lemma GetLists(c: Capability, rest: Bytes)
    requires Valid(c)
    ensures Triple(c.version >= 2, GetChoices, [], Lists(c, rest)) == Parsed((c.models, c.efforts, c.modes), rest)
  {
    hide GetChoices, PutChoices;
    var modes := PutChoices(c.modes, rest);
    GetPutChoices(c.modes, 16, rest);
    GetPutChoices(c.efforts, 16, modes);
    GetPutChoices(c.models, 32, if c.version >= 2 then PutChoices(c.efforts, modes) else modes);
  }

  lemma GetEffective(c: Capability, rest: Bytes)
    requires Valid(c)
    ensures Triple(c.version >= 2, GetString, "", Effective(c, rest)) ==
            Parsed((c.model, OrEmpty(c.effort), c.mode), rest)
  {
    hide GetString, PutString;
    var mode := PutString(c.mode, rest);
    GetPutString(c.mode, rest);
    GetPutString(OrEmpty(c.effort), mode);
    GetPutString(c.model, if c.version >= 2 then PutString(OrEmpty(c.effort), mode) else mode);
  }

  lemma GetChanges(c: Capability, rest: Bytes)
    requires Valid(c)
    ensures Triple(c.version >= 2, GetMode, "", Changes(c, rest)) ==
            Parsed((c.modelChange, c.effortChange, c.modeChange), rest)
  {
    hide GetMode, PutNumber, ModeByte;
    var mode := PutNumber(ModeByte(c.modeChange), 1, rest);
    GetPutMode(c.modeChange, rest);
    if c.version == 2 {
      GetPutMode(c.effortChange, mode);
      GetPutMode(c.modelChange, PutNumber(ModeByte(c.effortChange), 1, mode));
    } else {
      GetPutMode(c.modelChange, mode);
    }
  }

  lemma GetReasons(c: Capability, rest: Bytes)
    requires Valid(c)
    ensures Triple(c.version >= 2, GetString, "", Reasons(c, rest)) ==
            Parsed((OrEmpty(c.modelReason), OrEmpty(c.effortReason), OrEmpty(c.modeReason)), rest)
  {
    hide GetString, PutString;
    var mode := PutString(OrEmpty(c.modeReason), rest);
    GetPutString(OrEmpty(c.modeReason), rest);
    GetPutString(OrEmpty(c.effortReason), mode);
    GetPutString(OrEmpty(c.modelReason), if c.version >= 2 then PutString(OrEmpty(c.effortReason), mode) else mode);
  }

  lemma DecodeBodyInverts(c: Capability)
    requires Valid(c)
    ensures DecodeBody(c.version, Lists(c, Effective(c, Changes(c, Reasons(c, ""))))) == Some(c)
  {
    hide Triple, Lists, Effective, Changes, Reasons;
    var reasons := Reasons(c, "");
    var changes := Changes(c, reasons);
    GetLists(c, Effective(c, changes));
    GetEffective(c, changes);
    GetChanges(c, reasons);
    GetReasons(c, "");
  }

  lemma EncodingStarts(c: Capability)
    requires Valid(c)
    ensures Encoding(c) == Preamble(c.version) + Lists(c, Effective(c, Changes(c, Reasons(c, ""))))
  {
    hide Lists, Effective, Changes, Reasons;
    var body := Lists(c, Effective(c, Changes(c, Reasons(c, ""))));
    assert PutNumber(c.version, 1, body) == [Byte(c.version)] + body by {
      assert BigEndian(c.version / 256, 0) == [];
    }
    assert PutNumber(0, 1, [Byte(c.version)] + body) == [Byte(0)] + ([Byte(c.version)] + body) by {
      assert BigEndian(0, 0) == [];
    }
  }

  lemma PreamblesDiffer()
    ensures |Preamble(1)| == |Preamble(2)| && Preamble(1) != Preamble(2)
  {
    assert Preamble(1)[|Preamble(1)| - 1] as int == 1;
    assert Preamble(2)[|Preamble(2)| - 1] as int == 2;
  }

  /** Decoding the encoding of any valid capability, of either version, gives it back. */
  lemma DecodeInverts(c: Capability)
    requires Valid(c)
    ensures Decode(Encoding(c)) == Some(c)
  {
    hide Encoding, DecodeBody, Preamble, Lists, Effective, Changes, Reasons;
    EncodingStarts(c);
    DecodeBodyInverts(c);
    PreamblesDiffer();
    var body := Lists(c, Effective(c, Changes(c, Reasons(c, ""))));
    var data := Preamble(c.version) + body;
    assert data[..|Preamble(1)|] == Preamble(c.version) && data[|Preamble(c.version)|..] == body;
    assert c.version == 2 ==> !(Preamble(1) <= data);
  }

  /** So two valid capabilities with the same encoding are the same. */
  lemma EncodingIsInjective(a: Capability, b: Capability)
    requires Valid(a) && Valid(b) && Encoding(a) == Encoding(b)
    ensures a == b
  {
    DecodeInverts(a);
    DecodeInverts(b);
  }

  // ---- The mapper's own encoder ----

  function AllowedByte(change: Bytes): nat {
    if change == "allowed" then 1 else 0
  }

  /** What follows the lists in the mapper's encoding. */
  function MapperTail(c: Capability): Bytes {
    PutString(c.model, PutString(c.mode,
      PutNumber(AllowedByte(c.modelChange), 1, PutNumber(AllowedByte(c.modeChange), 1,
        PutString(OrEmpty(c.modelReason), PutString(OrEmpty(c.modeReason), ""))))))
  }

  function MapperEncoding(c: Capability): Bytes {
    Header(1) + PutNumber(0, 1, PutNumber(1, 1, PutChoices(c.models, PutChoices(c.modes, MapperTail(c)))))
  }

  lemma CancelChoices(choices: seq<Choice>, a: Bytes, b: Bytes)
    ensures PutChoices(choices, a) == PutChoices(choices, b) <==> a == b
  {
    CancelNumber(|choices|, 1, PutStrings(Flatten(choices), a), PutStrings(Flatten(choices), b));
    CancelStrings(Flatten(choices), a, b);
  }

  lemma {:induction false} CancelStrings(items: seq<Bytes>, a: Bytes, b: Bytes)
    ensures PutStrings(items, a) == PutStrings(items, b) <==> a == b
  {
    if items != [] {
      CancelString(items[0], PutStrings(items[1..], a), PutStrings(items[1..], b));
      CancelStrings(items[1..], a, b);
    }
  }

  lemma SameByte(x: nat, y: nat, a: Bytes, b: Bytes)
    requires x < 256 && y < 256
    ensures PutNumber(x, 1, a) == PutNumber(y, 1, b) <==> x == y && a == b
  {
    Powers();
    GetPutNumber(x, 1, a);
    GetPutNumber(y, 1, b);
  }

  lemma TailsAgree(c: Capability)
    requires Version(c) == 1
    ensures Effective(c, Changes(c, Reasons(c, ""))) == MapperTail(c) <==>
            c.modelChange != "unsupported" && c.modeChange != "unsupported"
  {
    hide PutString, PutNumber;
    var reasons := Reasons(c, "");
    var ours := PutNumber(ModeByte(c.modeChange), 1, reasons);
    var theirs := PutNumber(AllowedByte(c.modeChange), 1, reasons);
    var changes, allowed := Changes(c, reasons), PutNumber(AllowedByte(c.modelChange), 1, theirs);
    CancelString(c.mode, changes, allowed);
    CancelString(c.model, PutString(c.mode, changes), PutString(c.mode, allowed));
    SameByte(ModeByte(c.modelChange), AllowedByte(c.modelChange), ours, theirs);
    SameByte(ModeByte(c.modeChange), AllowedByte(c.modeChange), reasons, reasons);
  }

  /**
    For a first-version capability both encoders give the same bytes exactly when neither change mode is
    "unsupported".
  */
  lemma MapperAgrees(c: Capability)
    requires Version(c) == 1
    ensures MapperEncoding(c) == Encoding(c) <==> c.modelChange != "unsupported" && c.modeChange != "unsupported"
  {
    hide PutChoices, PutNumber, Effective, Changes, Reasons, MapperTail, Header;
    TailsAgree(c);
    var ours, theirs := Effective(c, Changes(c, Reasons(c, ""))), MapperTail(c);
    var x, y := PutChoices(c.modes, ours), PutChoices(c.modes, theirs);
    CancelChoices(c.modes, ours, theirs);
    CancelChoices(c.models, x, y);
    var x', y' := PutNumber(1, 1, PutChoices(c.models, x)), PutNumber(1, 1, PutChoices(c.models, y));
    CancelNumber(1, 1, PutChoices(c.models, x), PutChoices(c.models, y));
    CancelNumber(0, 1, x', y');
    CancelPrefix(Header(1), PutNumber(0, 1, x'), PutNumber(0, 1, y'));
  }

  lemma CancelPrefix(prefix: Bytes, a: Bytes, b: Bytes)
    ensures prefix + a == prefix + b <==> a == b
  {
    assert (prefix + a)[|prefix|..] == a && (prefix + b)[|prefix|..] == b;
  }

  /** A change mode that the validator accepts for models and permission modes is never "unsupported". */
  predicate ValidChangeMode(change: Bytes, reason: Option<Bytes>, choices: nat) {
    if change == "allowed" then choices >= 2 && reason.None?
    else change == "read_only" && reason.Some? && 1 <= |reason.value| <= 64
  }

  lemma MapperAgreesOnValid(c: Capability)
    requires c.version == 1
    requires ValidChangeMode(c.modelChange, c.modelReason, |c.models|)
    requires ValidChangeMode(c.modeChange, c.modeReason, |c.modes|)
    ensures MapperEncoding(c) == Encoding(c)
  {
    MapperAgrees(c);
  }

  // ---- The encoders as they append to a buffer ----

  method AppendChoices(data: Bytes, choices: seq<Choice>, ghost rest: Bytes, ghost all: Bytes) returns (longer: Bytes)
    requires data + PutChoices(choices, rest) == all
    ensures longer + rest == all
  {
    longer := AppendNumber(data, |choices|, 1, PutStrings(Flatten(choices), rest), all);
    for i := 0 to |choices|
      invariant longer + PutStrings(Flatten(choices[i..]), rest) == all
    {
      ghost var items := Flatten(choices[i..]);
      assert choices[i..][1..] == choices[i + 1..];
      assert items[1..] == [choices[i].title] + Flatten(choices[i + 1..]);
      longer := AppendString(longer, choices[i].id, PutStrings(items[1..], rest), all);
      assert items[1..][1..] == Flatten(choices[i + 1..]);
      longer := AppendString(longer, choices[i].title, PutStrings(Flatten(choices[i + 1..]), rest), all);
    }
  }

  method AppendLists(c: Capability, data: Bytes, ghost rest: Bytes, ghost all: Bytes) returns (longer: Bytes)
    requires data + Lists(c, rest) == all
    ensures longer + rest == all
  {
    hide PutChoices;
    ghost var modes := PutChoices(c.modes, rest);
    longer := AppendChoices(data, c.models, if Version(c) >= 2 then PutChoices(c.efforts, modes) else modes, all);
    if Version(c) >= 2 {
      longer := AppendChoices(longer, c.efforts, modes, all);
    }
    longer := AppendChoices(longer, c.modes, rest, all);
  }

  method AppendEffective(c: Capability, data: Bytes, ghost rest: Bytes, ghost all: Bytes) returns (longer: Bytes)
    requires data + Effective(c, rest) == all
    ensures longer + rest == all
  {
    hide PutString;
    ghost var mode := PutString(c.mode, rest);
    longer := AppendString(data, c.model, if Version(c) >= 2 then PutString(OrEmpty(c.effort), mode) else mode, all);
    if Version(c) >= 2 {
      longer := AppendString(longer, if c.effort.None? then "" else c.effort.value, mode, all);
    }
    longer := AppendString(longer, c.mode, rest, all);
  }

  method AppendChangeMode(mode: Bytes, data: Bytes, ghost rest: Bytes, ghost all: Bytes) returns (longer: Bytes)
    requires data + PutNumber(ModeByte(mode), 1, rest) == all
    ensures longer + rest == all
  {
    if mode == "allowed" {
      longer := AppendNumber(data, 1, 1, rest, all);
    } else if mode == "unsupported" {
      longer := AppendNumber(data, 2, 1, rest, all);
    } else {
      longer := AppendNumber(data, 0, 1, rest, all);
    }
  }

  method AppendChanges(c: Capability, data: Bytes, ghost rest: Bytes, ghost all: Bytes) returns (longer: Bytes)
    requires data + Changes(c, rest) == all
    ensures longer + rest == all
  {
    hide PutNumber, ModeByte;
    ghost var mode := PutNumber(ModeByte(c.modeChange), 1, rest);
    ghost var after := if Version(c) >= 2 then PutNumber(ModeByte(c.effortChange), 1, mode) else mode;
    longer := AppendChangeMode(c.modelChange, data, after, all);
    if Version(c) >= 2 {
      longer := AppendChangeMode(c.effortChange, longer, mode, all);
    }
    longer := AppendChangeMode(c.modeChange, longer, rest, all);
  }

  method AppendReasons(c: Capability, data: Bytes, ghost rest: Bytes, ghost all: Bytes) returns (longer: Bytes)
    requires data + Reasons(c, rest) == all
    ensures longer + rest == all
  {
    hide PutString;
    ghost var mode := PutString(OrEmpty(c.modeReason), rest);
    ghost var after := if Version(c) >= 2 then PutString(OrEmpty(c.effortReason), mode) else mode;
    longer := AppendString(data, if c.modelReason.None? then "" else c.modelReason.value, after, all);
    if Version(c) >= 2 {
      longer := AppendString(longer, if c.effortReason.None? then "" else c.effortReason.value, mode, all);
    }
    longer := AppendString(longer, if c.modeReason.None? then "" else c.modeReason.value, rest, all);
  }

  /** The bytes hashed by the protocol codec; on valid capabilities they determine the capability. */
  method EncodeCapability(c: Capability) returns (data: Bytes)
    ensures data == Encoding(c)
    ensures Valid(c) ==> Decode(data) == Some(c)
  {
    if Valid(c) {
      DecodeInverts(c);
    }
    hide Decode, Valid, Lists, Effective, Changes, Reasons, PutNumber, Header;
    ghost var all := Encoding(c);
    ghost var reasons := Reasons(c, "");
    ghost var changes := Changes(c, reasons);
    ghost var effective := Effective(c, changes);
    var version := if c.version == 0 then 1 else c.version;
    data := Header(version);
    data := AppendNumber(data, 0, 1, PutNumber(version, 1, Lists(c, effective)), all);
    data := AppendNumber(data, version, 1, Lists(c, effective), all);
    data := AppendLists(c, data, effective, all);
    data := AppendEffective(c, data, changes, all);
    data := AppendChanges(c, data, reasons, all);
    data := AppendReasons(c, data, "", all);
    assert data + "" == data;
  }

  /** The bytes hashed by the ACP mapper. */
  method EncodeByMapper(c: Capability) returns (data: Bytes)
    ensures data == MapperEncoding(c)
    ensures Version(c) == 1 && c.modelChange != "unsupported" && c.modeChange != "unsupported" ==> data == Encoding(c)
  {
    if Version(c) == 1 {
      MapperAgrees(c);
    }
    hide Encoding, PutChoices, PutNumber, PutString, Header;
    ghost var all := MapperEncoding(c);
    ghost var tail := MapperTail(c);
    ghost var modes := PutChoices(c.modes, tail);
    data := Header(1);
    data := AppendNumber(data, 0, 1, PutNumber(1, 1, PutChoices(c.models, modes)), all);
    data := AppendNumber(data, 1, 1, PutChoices(c.models, modes), all);
    data := AppendChoices(data, c.models, modes, all);
    data := AppendChoices(data, c.modes, tail, all);
    ghost var modeReason := PutString(OrEmpty(c.modeReason), "");
    ghost var reasons := PutString(OrEmpty(c.modelReason), modeReason);
    ghost var modeChange := PutNumber(AllowedByte(c.modeChange), 1, reasons);
    ghost var changes := PutNumber(AllowedByte(c.modelChange), 1, modeChange);
    data := AppendString(data, c.model, PutString(c.mode, changes), all);
    data := AppendString(data, c.mode, changes, all);
    data := AppendNumber(data, if c.modelChange == "allowed" then 1 else 0, 1, modeChange, all);
    data := AppendNumber(data, if c.modeChange == "allowed" then 1 else 0, 1, reasons, all);
    data := AppendString(data, if c.modelReason.None? then "" else c.modelReason.value, modeReason, all);
    data := AppendString(data, if c.modeReason.None? then "" else c.modeReason.value, "", all);
    assert data + "" == data;
  }

  // ---- The layout of the protocol document ----

  function ChangeCode(change: Bytes): nat {
    match change
    case "allowed" => 1
    case "unsupported" => 2
    case _ => 0
  }

  function ChoiceFields(choices: seq<Choice>): Bytes {
    if choices == [] then []
    else Field(choices[0].id) + Field(choices[0].title) + ChoiceFields(choices[1..])
  }

  /** The fields of the second version, in the order in which the document lists them. */
  function Layout(c: Capability): (fields: seq<Bytes>)
    ensures |fields| == 18
  {
    ["agentwharf.settings-capability.v2", [0x00 as char], U8(2),
     U8(|c.models|), ChoiceFields(c.models), U8(|c.efforts|), ChoiceFields(c.efforts),
     U8(|c.modes|), ChoiceFields(c.modes),
     Field(c.model), Field(OrEmpty(c.effort)), Field(c.mode),
     U8(ChangeCode(c.modelChange)), U8(ChangeCode(c.effortChange)), U8(ChangeCode(c.modeChange)),
     Field(OrEmpty(c.modelReason)), Field(OrEmpty(c.effortReason)), Field(OrEmpty(c.modeReason))]
  }

  /** The fields of the first version, which knows no efforts. */
  function LegacyLayout(c: Capability): (fields: seq<Bytes>)
    ensures |fields| == 13
  {
    ["agentwharf.settings-capability.v1", [0x00 as char], U8(1),
     U8(|c.models|), ChoiceFields(c.models), U8(|c.modes|), ChoiceFields(c.modes),
     Field(c.model), Field(c.mode), U8(ChangeCode(c.modelChange)), U8(ChangeCode(c.modeChange)),
     Field(OrEmpty(c.modelReason)), Field(OrEmpty(c.modeReason))]
  }

  lemma {:induction false} FlattenedFields(choices: seq<Choice>)
    ensures Fields(Flatten(choices)) == ChoiceFields(choices)
  {
    if choices != [] {
      FlattenedFields(choices[1..]);
      var items := Flatten(choices);
      assert items[1..][1..] == Flatten(choices[1..]) && items[1] == choices[0].title;
      assert Fields(items) == Field(items[0]) + (Field(items[1]) + Fields(items[1..][1..]));
      hide Field;
    }
  }

  lemma ChoicesLayout(choices: seq<Choice>, rest: Bytes)
    ensures PutChoices(choices, rest) == U8(|choices|) + (ChoiceFields(choices) + rest)
  {
    FlattenedFields(choices);
    StringsLayout(Flatten(choices), rest);
    NumberLayout(|choices|, PutStrings(Flatten(choices), rest));
    hide U8, PutStrings, Fields, PutNumber;
  }

  lemma ReasonsLayout(c: Capability)
    ensures Version(c) >= 2 ==> Reasons(c, "") == Concat(Layout(c)[15..])
    ensures Version(c) < 2 ==> Reasons(c, "") == Concat(LegacyLayout(c)[11..])
  {
    ConcatFrom(Layout(c));
    ConcatFrom(LegacyLayout(c));
    var mode := PutString(OrEmpty(c.modeReason), "");
    StringLayout(OrEmpty(c.modeReason), "");
    StringLayout(OrEmpty(c.effortReason), mode);
    StringLayout(OrEmpty(c.modelReason), if Version(c) >= 2 then PutString(OrEmpty(c.effortReason), mode) else mode);
    hide PutString, Field, U8, ChoiceFields, Concat, OrEmpty;
    var fields, legacy := Layout(c), LegacyLayout(c);
    assert Concat(fields[17..]) == fields[17] + Concat(fields[18..]);
    assert Concat(fields[16..]) == fields[16] + Concat(fields[17..]);
    assert Concat(fields[15..]) == fields[15] + Concat(fields[16..]);
    assert Concat(legacy[12..]) == legacy[12] + Concat(legacy[13..]);
    assert Concat(legacy[11..]) == legacy[11] + Concat(legacy[12..]);
  }

  lemma CodesAgree(change: Bytes)
    ensures ModeByte(change) == ChangeCode(change)
  {
  }

  lemma ChangesLayout(c: Capability, rest: Bytes)
    ensures Version(c) >= 2 && rest == Concat(Layout(c)[15..]) ==> Changes(c, rest) == Concat(Layout(c)[12..])
    ensures Version(c) < 2 && rest == Concat(LegacyLayout(c)[11..]) ==>
              Changes(c, rest) == Concat(LegacyLayout(c)[9..])
  {
    ConcatFrom(Layout(c));
    ConcatFrom(LegacyLayout(c));
    CodesAgree(c.modelChange);
    CodesAgree(c.effortChange);
    CodesAgree(c.modeChange);
    hide ModeByte, ChangeCode;
    var mode := PutNumber(ModeByte(c.modeChange), 1, rest);
    NumberLayout(ModeByte(c.modeChange), rest);
    NumberLayout(ModeByte(c.effortChange), mode);
    NumberLayout(ModeByte(c.modelChange),
                 if Version(c) >= 2 then PutNumber(ModeByte(c.effortChange), 1, mode) else mode);
    hide PutNumber, Field, U8, ChoiceFields, Concat, OrEmpty;
    var fields, legacy := Layout(c), LegacyLayout(c);
    assert Concat(fields[14..]) == fields[14] + Concat(fields[15..]);
    assert Concat(fields[13..]) == fields[13] + Concat(fields[14..]);
    assert Concat(fields[12..]) == fields[12] + Concat(fields[13..]);
    assert Concat(legacy[10..]) == legacy[10] + Concat(legacy[11..]);
    assert Concat(legacy[9..]) == legacy[9] + Concat(legacy[10..]);
  }

  lemma EffectiveLayout(c: Capability, rest: Bytes)
    ensures Version(c) >= 2 && rest == Concat(Layout(c)[12..]) ==> Effective(c, rest) == Concat(Layout(c)[9..])
    ensures Version(c) < 2 && rest == Concat(LegacyLayout(c)[9..]) ==>
              Effective(c, rest) == Concat(LegacyLayout(c)[7..])
  {
    ConcatFrom(Layout(c));
    ConcatFrom(LegacyLayout(c));
    var mode := PutString(c.mode, rest);
    StringLayout(c.mode, rest);
    StringLayout(OrEmpty(c.effort), mode);
    StringLayout(c.model, if Version(c) >= 2 then PutString(OrEmpty(c.effort), mode) else mode);
    hide PutString, Field, U8, ChoiceFields, Concat, OrEmpty;
    var fields, legacy := Layout(c), LegacyLayout(c);
    assert Concat(fields[11..]) == fields[11] + Concat(fields[12..]);
    assert Concat(fields[10..]) == fields[10] + Concat(fields[11..]);
    assert Concat(fields[9..]) == fields[9] + Concat(fields[10..]);
    assert Concat(legacy[8..]) == legacy[8] + Concat(legacy[9..]);
    assert Concat(legacy[7..]) == legacy[7] + Concat(legacy[8..]);
  }

  lemma ListsLayout(c: Capability, rest: Bytes)
    ensures Version(c) >= 2 && rest == Concat(Layout(c)[9..]) ==> Lists(c, rest) == Concat(Layout(c)[3..])
    ensures Version(c) < 2 && rest == Concat(LegacyLayout(c)[7..]) ==>
              Lists(c, rest) == Concat(LegacyLayout(c)[3..])
  {
    ConcatFrom(Layout(c));
    ConcatFrom(LegacyLayout(c));
    var modes := PutChoices(c.modes, rest);
    ChoicesLayout(c.modes, rest);
    ChoicesLayout(c.efforts, modes);
    ChoicesLayout(c.models, if Version(c) >= 2 then PutChoices(c.efforts, modes) else modes);
    hide PutChoices, Field, U8, ChoiceFields, Concat, OrEmpty;
    var fields, legacy := Layout(c), LegacyLayout(c);
    assert Concat(fields[8..]) == fields[8] + Concat(fields[9..]);
    assert Concat(fields[7..]) == fields[7] + Concat(fields[8..]);
    assert Concat(fields[6..]) == fields[6] + Concat(fields[7..]);
    assert Concat(fields[5..]) == fields[5] + Concat(fields[6..]);
    assert Concat(fields[4..]) == fields[4] + Concat(fields[5..]);
    assert Concat(fields[3..]) == fields[3] + Concat(fields[4..]);
    assert Concat(legacy[6..]) == legacy[6] + Concat(legacy[7..]);
    assert Concat(legacy[5..]) == legacy[5] + Concat(legacy[6..]);
    assert Concat(legacy[4..]) == legacy[4] + Concat(legacy[5..]);
    assert Concat(legacy[3..]) == legacy[3] + Concat(legacy[4..]);
  }

  lemma LayoutStarts(c: Capability)
    ensures Layout(c)[0] == Header(2) && Layout(c)[1] == U8(0) && Layout(c)[2] == U8(2)
  {
    HeaderText();
    hide ChoiceFields, Field, ChangeCode, OrEmpty, Header;
  }

  lemma LegacyLayoutStarts(c: Capability)
    ensures LegacyLayout(c)[0] == Header(1) && LegacyLayout(c)[1] == U8(0) && LegacyLayout(c)[2] == U8(1)
  {
    HeaderText();
    hide ChoiceFields, Field, ChangeCode, OrEmpty, Header;
  }

  lemma HeaderText()
    ensures Header(1) == "agentwharf.settings-capability.v1"
    ensures Header(2) == "agentwharf.settings-capability.v2"
  {
    assert Digits(1) == ['1'] && Digits(2) == ['2'];
    hide Digits;
  }

  lemma HeaderLayout(header: Bytes, version: nat, rest: Bytes, fields: seq<Bytes>)
    requires |fields| >= 3 && fields[0] == header && fields[1] == U8(0) && fields[2] == U8(version)
    requires rest == Concat(fields[3..])
    ensures header + PutNumber(0, 1, PutNumber(version, 1, rest)) == Concat(fields)
  {
    ConcatFrom(fields);
    NumberLayout(version, rest);
    NumberLayout(0, PutNumber(version, 1, rest));
    hide PutNumber, U8, Concat;
    assert Concat(fields[2..]) == fields[2] + Concat(fields[3..]);
    assert Concat(fields[1..]) == fields[1] + Concat(fields[2..]);
    assert Concat(fields[0..]) == fields[0] + Concat(fields[1..]);
  }

  /** The bytes are those of the protocol document, field by field; the first version leaves the efforts out. */
  lemma EncodingFollowsDocument(c: Capability)
    requires Version(c) == 1 || Version(c) == 2
    ensures Encoding(c) == Concat(if Version(c) == 2 then Layout(c) else LegacyLayout(c))
  {
    var reasons := Reasons(c, "");
    var changes := Changes(c, reasons);
    var effective := Effective(c, changes);
    ReasonsLayout(c);
    ChangesLayout(c, reasons);
    EffectiveLayout(c, changes);
    ListsLayout(c, effective);
    if Version(c) == 2 {
      LayoutStarts(c);
      HeaderLayout(Header(2), 2, Lists(c, effective), Layout(c));
    } else {
      LegacyLayoutStarts(c);
      HeaderLayout(Header(1), 1, Lists(c, effective), LegacyLayout(c));
    }
    hide Concat, Layout, LegacyLayout, Reasons, Changes, Effective, Lists, PutNumber, Header;
  }
}
