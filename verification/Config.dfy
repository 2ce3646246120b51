/** The publish gate on TLP labels: the Go gate used at ingest time and the label set given to SQL. */
module Config {
  import opened Text

  const CLEAR := "CLEAR"
  const WHITE := "WHITE"
  const KNOWN_LABELS: set<string> := {"UNLABELED", "WHITE", "CLEAR", "GREEN", "AMBER", "RED"}

  datatype Config = Config(providerUrl: string, publishable: seq<string>)

  // The labels parseTLPLabels can put in a configuration.
  predicate Canonical(mark: string) {
    mark in KNOWN_LABELS && mark != CLEAR
  }

  // A configuration as Load builds it.
  predicate Loaded(cfg: Config) {
    forall i :: 0 <= i < |cfg.publishable| ==> Canonical(cfg.publishable[i])
  }

  function NormalizeTlp(mark: string): string {
    var name := Upper(TrimSpace(mark));
    if name == CLEAR then WHITE else name
  }

  predicate IsPublishable(cfg: Config, mark: string) {
    NormalizeTlp(mark) in cfg.publishable
  }

  // The set of labels a loop over cfg.publishable expands to.
  ghost predicate InTlpSet(cfg: Config, mark: string) {
    exists l :: l in cfg.publishable && (mark == NormalizeTlp(l) || (mark == CLEAR && NormalizeTlp(l) == WHITE))
  }

  method PublishableTlpSet(cfg: Config) returns (out: seq<string>)
    ensures forall mark :: mark in out <==> InTlpSet(cfg, mark)
  {
    out := [];
    for i := 0 to |cfg.publishable|
      invariant forall mark :: mark in out <==>
        exists j :: 0 <= j < i && (mark == NormalizeTlp(cfg.publishable[j])
                                   || (mark == CLEAR && NormalizeTlp(cfg.publishable[j]) == WHITE))
    {
      var name := NormalizeTlp(cfg.publishable[i]);
      out := out + [name];
      if name == WHITE {
        out := out + [CLEAR];
      }
    }
  }

  function SplitComma(raw: string): (parts: seq<string>)
    ensures |parts| > 0
  {
    if raw == "" then [""]
    else
      var rest := SplitComma(raw[1..]);
      if raw[0] == ',' then [""] + rest else [[raw[0]] + rest[0]] + rest[1..]
  }

  function LabelOf(part: string): string {
    Upper(TrimSpace(part))
  }

  function KeptPart(part: string): seq<string> {
    if LabelOf(part) != "" then [NormalizeTlp(part)] else []
  }

  // The normalized labels of the non-blank parts, in order.
  function Kept(parts: seq<string>): seq<string> {
    if parts == [] then []
    else
      Kept(parts[..|parts| - 1]) + KeptPart(parts[|parts| - 1])
  }

  predicate Known(part: string) {
    LabelOf(part) == "" || LabelOf(part) in KNOWN_LABELS
  }

  method ParsePart(part: string) returns (known: bool, kept: seq<string>)
    ensures known == Known(part)
    ensures known ==> kept == KeptPart(part)
  {
    var name := LabelOf(part);
    if name == "" {
      return true, [];
    }
    known := name in KNOWN_LABELS;
    if known {
      KnownPartNormalizes(part);
    }
    kept := [NormalizeTlp(name)];
  }

  // None is the error result: an unknown label, or no label at all.
  method ParseTlpLabels(raw: string) returns (r: Option<seq<string>>)
    ensures var parts := SplitComma(raw);
      && (r.Some? <==> (forall i :: 0 <= i < |parts| ==> Known(parts[i])) && Kept(parts) != [])
      && (r.Some? ==> r.value == Kept(parts))
    ensures r.Some? ==> forall i :: 0 <= i < |r.value| ==> Canonical(r.value[i])
  {
    hide SplitComma, Known, KeptPart, Canonical, NormalizeTlp;
    var parts := SplitComma(raw);
    var labels: seq<string> := [];
    for i := 0 to |parts|
      invariant forall j :: 0 <= j < i ==> Known(parts[j])
      invariant labels == Kept(parts[..i])
    {
      assert parts[..i + 1][..i] == parts[..i];
      var known, kept := ParsePart(parts[i]);
      if !known {
        return None;
      }
      labels := labels + kept;
    }
    KeptAreCanonical(parts);
    assert parts[..|parts|] == parts;
    return if labels == [] then None else Some(labels);
  }

  predicate Capitals(s: string) {
    s != "" && forall c :: c in s ==> 'A' <= c <= 'Z'
  }

  lemma KnownLabelsAreCapitals()
    ensures forall l :: l in KNOWN_LABELS ==> Capitals(l)
  {
    assert Capitals("UNLABELED") && Capitals("WHITE") && Capitals("CLEAR");
    assert Capitals("GREEN") && Capitals("AMBER") && Capitals("RED");
  }

  lemma CapitalsFixpoint(name: string)
    requires Capitals(name)
    ensures NoOuterBlanks(name) && TrimSpace(name) == name && Upper(name) == name
  {
    assert forall i :: 0 <= i < |name| ==> name[i] in name;
    assert Upper(name) == name;
    TrimSpaceFixpoint(name);
  }

  // Normalizing the part again, as parseTLPLabels does, gives the label the gate compares with.
  lemma KnownPartNormalizes(part: string)
    requires LabelOf(part) in KNOWN_LABELS
    ensures NormalizeTlp(LabelOf(part)) == NormalizeTlp(part) && Canonical(NormalizeTlp(part))
  {
    KnownLabelsAreCapitals();
    CapitalsFixpoint(LabelOf(part));
  }

  lemma {:induction false} KeptAreCanonical(parts: seq<string>)
    requires forall i :: 0 <= i < |parts| ==> Known(parts[i])
    ensures forall i :: 0 <= i < |Kept(parts)| ==> Canonical(Kept(parts)[i])
  {
    if parts != [] {
      KeptAreCanonical(parts[..|parts| - 1]);
      if LabelOf(parts[|parts| - 1]) != "" {
        KnownPartNormalizes(parts[|parts| - 1]);
      }
    }
  }

  lemma CanonicalFixpoint(mark: string)
    requires Canonical(mark)
    ensures NormalizeTlp(mark) == mark && NoOuterBlanks(mark) && Upper(mark) == mark
  {
    KnownLabelsAreCapitals();
    CapitalsFixpoint(mark);
  }

  // The SQL gate admits a stored label exactly when the Go gate does and no blank surrounds it:
  // the Go gate trims, upper(d.tlp) does not.
  lemma GateAgreement(cfg: Config, mark: string)
    requires Loaded(cfg)
    ensures InTlpSet(cfg, Upper(mark)) <==> IsPublishable(cfg, mark) && NoOuterBlanks(mark)
  {
    TrimSpaceFixpoint(mark);
    UpperKeepsBlanks(mark);
    forall l | l in cfg.publishable
      ensures NormalizeTlp(l) == l && NoOuterBlanks(l) && Upper(l) == l && l != CLEAR
    {
      CanonicalFixpoint(l);
    }
    assert NoOuterBlanks(CLEAR) by {
      assert CLEAR[0] == 'C' && CLEAR[|CLEAR| - 1] == 'R';
    }
    if NoOuterBlanks(mark) && NormalizeTlp(mark) in cfg.publishable {
      assert NormalizeTlp(NormalizeTlp(mark)) == NormalizeTlp(mark);
      assert InTlpSet(cfg, Upper(mark));
    }
  }

  // Without the blank condition the two gates disagree.
  lemma GatesDisagreeOnBlanks(cfg: Config)
    requires Loaded(cfg) && WHITE in cfg.publishable
    ensures IsPublishable(cfg, " WHITE") && !InTlpSet(cfg, Upper(" WHITE"))
  {
    var mark := " WHITE";
    assert TrimLeft(mark, GO_BLANKS) == "WHITE" by {
      assert mark[1..] == "WHITE";
    }
    assert TrimSpace(mark) == "WHITE";
    assert Upper("WHITE") == "WHITE";
    GateAgreement(cfg, mark);
  }

  // ---------- What the gates and the configuration mean ----------

  // A label passes the Go gate exactly if, in upper case and without outer blanks, it is one of the configured
  // labels, or CLEAR where WHITE is configured.
  lemma GateMeans(cfg: Config, mark: string)
    requires Loaded(cfg)
    ensures IsPublishable(cfg, mark) <==>
      || Upper(TrimSpace(mark)) in cfg.publishable
      || (Upper(TrimSpace(mark)) == "CLEAR" && "WHITE" in cfg.publishable)
  {
    assert forall l :: l in cfg.publishable ==> Canonical(l);
  }

  // The labels given to SQL are the configured ones, and CLEAR where WHITE is configured.
  lemma TlpSetMeans(cfg: Config, mark: string)
    requires Loaded(cfg)
    ensures InTlpSet(cfg, mark) <==> mark in cfg.publishable || (mark == "CLEAR" && "WHITE" in cfg.publishable)
  {
    forall l | l in cfg.publishable ensures NormalizeTlp(l) == l {
      CanonicalFixpoint(l);
    }
  }

  function Join(parts: seq<string>): string {
    if parts == [] then "" else if |parts| == 1 then parts[0] else parts[0] + "," + Join(parts[1..])
  }

  // The parts are the text between the commas.
  lemma {:induction false} SplitIsExact(raw: string)
    ensures Join(SplitComma(raw)) == raw
    ensures forall i :: 0 <= i < |SplitComma(raw)| ==> ',' !in SplitComma(raw)[i]
  {
    if raw != "" {
      var rest := SplitComma(raw[1..]);
      SplitIsExact(raw[1..]);
      assert raw == [raw[0]] + raw[1..];
      if raw[0] == ',' {
        assert ([""] + rest)[1..] == rest;
        assert raw == "" + "," + raw[1..];
      } else {
        JoinHead(raw[0], rest);
      }
    }
  }

  lemma JoinHead(c: char, parts: seq<string>)
    requires parts != []
    ensures Join([[c] + parts[0]] + parts[1..]) == [c] + Join(parts)
  {
    var longer := [[c] + parts[0]] + parts[1..];
    assert longer[1..] == parts[1..] && longer[0] == [c] + parts[0];
    if |parts| > 1 {
      assert [c] + parts[0] + "," + Join(parts[1..]) == [c] + (parts[0] + "," + Join(parts[1..]));
    }
  }

  lemma {:induction false} SplitUndoesJoin(parts: seq<string>)
    requires parts != [] && forall i :: 0 <= i < |parts| ==> ',' !in parts[i]
    ensures SplitComma(Join(parts)) == parts
  {
    if |parts| == 1 {
      SplitPart(parts[0], "");
      assert parts[0] + "" == parts[0] && parts == [parts[0]];
    } else {
      var rest := "," + Join(parts[1..]);
      SplitUndoesJoin(parts[1..]);
      assert rest[1..] == Join(parts[1..]);
      assert SplitComma(rest) == [""] + parts[1..];
      SplitPart(parts[0], rest);
      assert Join(parts) == parts[0] + rest;
      hide SplitComma, Join;
      assert parts[0] + "" == parts[0] && ([""] + parts[1..])[1..] == parts[1..];
      assert parts == [parts[0]] + parts[1..];
    }
  }

  // A text without commas goes to the first part as it is.
  lemma {:induction false} SplitPart(part: string, rest: string)
    requires ',' !in part
    ensures var s := SplitComma(rest); SplitComma(part + rest) == [part + s[0]] + s[1..]
  {
    var s := SplitComma(rest);
    if part == "" {
      assert part + rest == rest && part + s[0] == s[0];
    } else {
      SplitPart(part[1..], rest);
      assert (part + rest)[1..] == part[1..] + rest && (part + rest)[0] == part[0] && part[0] in part;
      assert [part[0]] + (part[1..] + s[0]) == part + s[0];
    }
  }

  // Writing a list of canonical labels out and parsing it gives the list back.
  lemma LabelsRoundTrip(labels: seq<string>)
    requires labels != [] && forall i :: 0 <= i < |labels| ==> Canonical(labels[i])
    ensures var parts := SplitComma(Join(labels));
      (forall i :: 0 <= i < |parts| ==> Known(parts[i])) && Kept(parts) == labels
  {
    forall i | 0 <= i < |labels| ensures ',' !in labels[i] && Known(labels[i]) && KeptPart(labels[i]) == [labels[i]] {
      KnownLabelsAreCapitals();
      CapitalsFixpoint(labels[i]);
    }
    SplitUndoesJoin(labels);
    KeptAll(labels);
  }

  lemma {:induction false} KeptAll(labels: seq<string>)
    requires forall i :: 0 <= i < |labels| ==> KeptPart(labels[i]) == [labels[i]]
    ensures Kept(labels) == labels
  {
    hide KeptPart;
    if labels != [] {
      KeptAll(labels[..|labels| - 1]);
      assert labels == labels[..|labels| - 1] + [labels[|labels| - 1]];
    }
  }

  // A part is accepted exactly if it is blank or, ignoring case and outer blanks, one of the six labels; CLEAR
  // is kept as WHITE and any other as it is.
  lemma PartMeans(part: string)
    ensures Known(part) <==>
      TrimSpace(part) == "" || Upper(TrimSpace(part)) in ["UNLABELED", "WHITE", "CLEAR", "GREEN", "AMBER", "RED"]
    ensures KeptPart(part) ==
      if TrimSpace(part) == "" then [] else if Upper(TrimSpace(part)) == "CLEAR" then ["WHITE"] else [Upper(TrimSpace(part))]
  {
  }
}
