/** The keys of the metrics registry (src/lib/metrics.ts): name{label="value",...} and back. */
module MetricKeys {
  import opened Wrappers
  import opened Sequences

  type Pair = (string, string)

  predicate IsWord(c: char) {
    'a' <= c <= 'z' || 'A' <= c <= 'Z' || '0' <= c <= '9' || c == '_'
  }

  predicate AllWord(s: string) {
    forall i :: 0 <= i < |s| ==> IsWord(s[i])
  }

  // ----- sanitizing -----

  function SanitizeName(name: string): (s: string)
    ensures |s| == |name| && forall i :: 0 <= i < |s| ==> IsWord(s[i]) || s[i] == ':'
  {
    seq(|name|, i requires 0 <= i < |name| => if IsWord(name[i]) || name[i] == ':' then name[i] else '_')
  }

  function SanitizeLabelName(name: string): (s: string)
    ensures |s| == |name| && AllWord(s)
  {
    seq(|name|, i requires 0 <= i < |name| => if IsWord(name[i]) then name[i] else '_')
  }

  predicate IsStripped(c: char) {
    c <= '\U{1F}' || c == '\U{7F}' || c == '"' || c == '\\'
  }

  function StripValue(v: string): (s: string)
    ensures '"' !in s && (forall c :: c in s ==> c in v)
  {
    if v == "" then ""
    else if IsStripped(v[0]) then StripValue(v[1..])
    else [v[0]] + StripValue(v[1..])
  }

  const PLACEHOLDERS: set<string> :=
    {"[REDACTED_NUMERIC_ID]", "[REDACTED_EMAIL]", "[REDACTED_PHONE]", "[REDACTED_IP]", "[REDACTED_ID]"}

  /** The privacy filter keeps a value or puts a placeholder in its place. */
  ghost predicate IsRedaction(redact: string -> string) {
    forall v :: redact(v) == v || redact(v) in PLACEHOLDERS
  }

  /** Later labels overwrite earlier ones with the same sanitized name. */
  function SanitizeLabels(labels: seq<Pair>, redact: string -> string): map<string, string> {
    if labels == [] then map[]
    else
      var last := labels[|labels| - 1];
      SanitizeLabels(labels[..|labels| - 1], redact)[SanitizeLabelName(last.0) := redact(StripValue(last.1))]
  }

  // Sorting, whatever the locale says, lists the names of a label set.
  ghost predicate IsOrder(order: set<string> -> seq<string>) {
    forall names, n :: n in order(names) <==> n in names
  }

  // ----- the key -----

  function PairText(p: Pair): string {
    p.0 + "=\"" + p.1 + "\""
  }

  function Join(pairs: seq<Pair>): string {
    if pairs == [] then ""
    else if |pairs| == 1 then PairText(pairs[0])
    else PairText(pairs[0]) + ("," + Join(pairs[1..]))
  }

  function Entries(labels: map<string, string>, names: seq<string>): (pairs: seq<Pair>)
    requires forall n :: n in names ==> n in labels
    ensures |pairs| == |names|
  {
    seq(|names|, i requires 0 <= i < |names| => (names[i], labels[names[i]]))
  }

  /** The key of a sanitized name and a sanitized label set. */
  function KeyText(name: string, labels: map<string, string>, names: seq<string>): string
    requires forall n :: n in names ==> n in labels
  {
    if labels == map[] then name else name + ("{" + Join(Entries(labels, names)) + "}")
  }

  function GetMetricKey(name: string, labels: seq<Pair>, redact: string -> string,
                        order: set<string> -> seq<string>): string
    requires IsOrder(order)
  {
    var clean := SanitizeLabels(labels, redact);
    KeyText(SanitizeName(name), clean, order(clean.Keys))
  }

  // ----- parsing -----

  // The length of the leading run of word characters.
  function WordRun(s: string): (n: nat)
    ensures n <= |s| && AllWord(s[..n]) && (n < |s| ==> !IsWord(s[n]))
  {
    if s == "" || !IsWord(s[0]) then 0 else 1 + WordRun(s[1..])
  }

  // A label pair at the very start of the text, with the length it takes.
  function PairAtStart(s: string): (r: Option<(Pair, nat)>)
    ensures r.Some? ==> 0 < r.value.1 <= |s| && r.value.0.0 != ""
  {
    var n := WordRun(s);
    if n > 0 && n + 1 < |s| && s[n] == '=' && s[n + 1] == '"' then
      var close := IndexOf(s[n + 2..], '"');
      if close < |s| - n - 2 then Some(((s[..n], s[n + 2..n + 2 + close]), n + close + 3)) else None
    else None
  }

  /** All matches of the label pattern, from left to right. */
  function ScanPairs(s: string): (pairs: seq<Pair>)
    ensures forall i :: 0 <= i < |pairs| ==> pairs[i].0 != ""
    decreases |s|
  {
    if s == "" then []
    else
      var first := PairAtStart(s);
      if first.Some? then [first.value.0] + ScanPairs(s[first.value.1..]) else ScanPairs(s[1..])
  }

  function MapOf(pairs: seq<Pair>): (labels: map<string, string>)
    ensures forall n :: n in labels ==> exists i :: 0 <= i < |pairs| && pairs[i].0 == n
  {
    if pairs == [] then map[]
    else
      var last := pairs[|pairs| - 1];
      var labels := MapOf(pairs[..|pairs| - 1])[last.0 := last.1];
      assert pairs[|pairs| - 1].0 == last.0;
      labels
  }

  predicate IsSpace(c: char) {
    || '\t' <= c <= '\r' || c == ' ' || c == '\U{A0}' || c == '\U{1680}' || '\U{2000}' <= c <= '\U{200A}'
    || c == '\U{2028}' || c == '\U{2029}' || c == '\U{202F}' || c == '\U{205F}' || c == '\U{3000}' || c == '\U{FEFF}'
  }

  predicate IsBlank(s: string) {
    forall i :: 0 <= i < |s| ==> IsSpace(s[i])
  }

  datatype Parsed = Parsed(name: string, labels: Option<map<string, string>>)

  // The text between the braces of name{...}, if the key has that shape.
  function LabelPart(key: string): Option<string> {
    var brace := IndexOf(key, '{');
    if 0 < brace && brace + 1 < |key| && key[|key| - 1] == '}' && '}' !in key[brace + 1..|key| - 1] then
      Some(key[brace + 1..|key| - 1])
    else None
  }

  function Parse(key: string): Parsed {
    var part := LabelPart(key);
    if part.None? then Parsed(key, None)
    else Parsed(key[..IndexOf(key, '{')], Some(if IsBlank(part.value) then map[] else MapOf(ScanPairs(part.value))))
  }

  method ParseMetricKey(key: string) returns (parsed: Parsed)
    ensures parsed == Parse(key)
  {
    var brace := IndexOf(key, '{');
    var part := LabelPart(key);
    if part.None? { return Parsed(key, None); }
    if IsBlank(part.value) { return Parsed(key[..brace], Some(map[])); }
    var pairs := ScanPairs(part.value);
    var labels: map<string, string> := map[];
    for i := 0 to |pairs|
      invariant labels == MapOf(pairs[..i])
    {
      assert pairs[..i + 1][..i] == pairs[..i];
      labels := labels[pairs[i].0 := pairs[i].1];
    }
    assert pairs[..|pairs|] == pairs;
    return Parsed(key[..brace], Some(labels));
  }

  // ----- scanning undoes joining -----

  predicate PairOk(p: Pair) {
    p.0 != "" && AllWord(p.0) && '"' !in p.1
  }

  lemma IndexOfFirst(s: string, c: char, rest: string)
    requires c !in s
    ensures IndexOf(s + [c] + rest, c) == |s|
  {
    var text := s + [c] + rest;
    assert text[|s|] == c;
    assert forall j :: 0 <= j < |s| ==> text[j] == s[j];
  }

  lemma {:induction false} WordRunOf(word: string, c: char, rest: string)
    requires AllWord(word) && !IsWord(c)
    ensures WordRun(word + [c] + rest) == |word|
  {
    if word != "" {
      assert (word + [c] + rest)[1..] == word[1..] + [c] + rest;
      WordRunOf(word[1..], c, rest);
    }
  }

  lemma PairTextThen(p: Pair, rest: string)
    ensures PairText(p) + rest == p.0 + ['='] + ("\"" + p.1 + "\"" + rest)
    ensures var n, text := |p.0|, PairText(p) + rest;
      && |text| == n + |p.1| + 3 + |rest| && text[n] == '=' && text[n + 1] == '"'
      && text[..n] == p.0 && text[n + 2..] == p.1 + ['"'] + rest && text[n + 2..n + 2 + |p.1|] == p.1
      && text[n + 3 + |p.1|..] == rest
  {
  }

  lemma PairFound(p: Pair, rest: string)
    requires PairOk(p)
    ensures PairAtStart(PairText(p) + rest) == Some((p, |PairText(p)|))
  {
    PairTextThen(p, rest);
    WordRunOf(p.0, '=', "\"" + p.1 + "\"" + rest);
    IndexOfFirst(p.1, '"', rest);
  }

  lemma ScanPair(p: Pair, rest: string)
    requires PairOk(p)
    ensures ScanPairs(PairText(p) + rest) == [p] + ScanPairs(rest)
  {
    PairFound(p, rest);
    assert (PairText(p) + rest)[|PairText(p)|..] == rest;
  }

  lemma ScanComma(rest: string)
    ensures ScanPairs("," + rest) == ScanPairs(rest)
  {
    assert ("," + rest)[0] == ',' && !IsWord(',');
    assert WordRun("," + rest) == 0;
    assert ("," + rest)[1..] == rest;
  }

  /** The scanner finds exactly the pairs that were joined. */
  lemma {:induction false} ScanJoined(pairs: seq<Pair>)
    requires forall i :: 0 <= i < |pairs| ==> PairOk(pairs[i])
    ensures ScanPairs(Join(pairs)) == pairs
  {
    if |pairs| == 1 {
      ScanPair(pairs[0], "");
      assert PairText(pairs[0]) + "" == PairText(pairs[0]);
    } else if |pairs| > 1 {
      ScanPair(pairs[0], "," + Join(pairs[1..]));
      ScanComma(Join(pairs[1..]));
      ScanJoined(pairs[1..]);
    }
  }

  lemma {:induction false} MapOfEntries(labels: map<string, string>, names: seq<string>)
    requires forall n :: n in names ==> n in labels
    ensures forall n :: n in MapOf(Entries(labels, names)) <==> n in names
    ensures forall n :: n in MapOf(Entries(labels, names)) ==> MapOf(Entries(labels, names))[n] == labels[n]
    decreases |names|
  {
    if names != [] {
      var init := names[..|names| - 1];
      MapOfEntries(labels, init);
      assert Entries(labels, names)[..|names| - 1] == Entries(labels, init);
      assert names == init + [names[|names| - 1]];
    }
  }

  lemma EntriesGiveLabels(labels: map<string, string>, names: seq<string>)
    requires forall n :: n in names <==> n in labels
    ensures MapOf(Entries(labels, names)) == labels
  {
    MapOfEntries(labels, names);
  }

  // ----- label sets as they reach the key -----

  /** Sanitized label sets: word names and values without quotes. */
  predicate Clean(labels: map<string, string>) {
    forall n :: n in labels ==> AllWord(n) && '"' !in labels[n]
  }

  lemma {:induction false} SanitizedIsClean(labels: seq<Pair>, redact: string -> string)
    requires IsRedaction(redact)
    ensures Clean(SanitizeLabels(labels, redact))
    ensures labels != [] ==> SanitizeLabels(labels, redact) != map[]
  {
    if labels != [] {
      var last := labels[|labels| - 1];
      SanitizedIsClean(labels[..|labels| - 1], redact);
      assert SanitizeLabelName(last.0) in SanitizeLabels(labels, redact);
      assert forall p :: p in PLACEHOLDERS ==> '"' !in p;
    }
  }

  lemma CleanEntries(labels: map<string, string>, names: seq<string>)
    requires Clean(labels) && "" !in labels && (forall n :: n in names ==> n in labels)
    ensures ScanPairs(Join(Entries(labels, names))) == Entries(labels, names)
  {
    forall i | 0 <= i < |names| ensures PairOk(Entries(labels, names)[i]) {
      assert names[i] in names;
    }
    ScanJoined(Entries(labels, names));
  }

  lemma {:induction false} JoinedHas(pairs: seq<Pair>, k: nat, c: char)
    requires k < |pairs| && c in pairs[k].1
    ensures c in Join(pairs)
  {
    var i :| 0 <= i < |pairs[k].1| && pairs[k].1[i] == c;
    if k == 0 {
      assert Join(pairs)[|pairs[0].0| + 2 + i] == c;
    } else {
      JoinedHas(pairs[1..], k - 1, c);
      var j :| 0 <= j < |Join(pairs[1..])| && Join(pairs[1..])[j] == c;
      assert Join(pairs)[|PairText(pairs[0])| + 1 + j] == c;
    }
  }

  lemma PairTextHas(p: Pair, c: char)
    requires c in PairText(p) && c != '=' && c != '"'
    ensures c in p.0 || c in p.1
  {
  }

  lemma {:induction false} JoinedHasOnly(pairs: seq<Pair>, c: char)
    requires c in Join(pairs) && c != '=' && c != '"' && c != ','
    ensures exists k :: 0 <= k < |pairs| && (c in pairs[k].0 || c in pairs[k].1)
  {
    if pairs != [] {
      if c in PairText(pairs[0]) {
        PairTextHas(pairs[0], c);
        assert c in pairs[0].0 || c in pairs[0].1;
      } else {
        assert c in Join(pairs[1..]) by { TailHas(pairs, c); }
        JoinedHasOnly(pairs[1..], c);
        var k :| 0 <= k < |pairs| - 1 && (c in pairs[1..][k].0 || c in pairs[1..][k].1);
        assert c in pairs[k + 1].0 || c in pairs[k + 1].1;
      }
    }
  }

  lemma TailHas(pairs: seq<Pair>, c: char)
    requires pairs != [] && c in Join(pairs) && c !in PairText(pairs[0]) && c != ','
    ensures c in Join(pairs[1..])
  {
    hide PairText, Join;
    JoinCons(pairs);
    if |pairs| > 1 {
      BehindComma(PairText(pairs[0]), Join(pairs[1..]), c);
    }
  }

  lemma JoinCons(pairs: seq<Pair>)
    requires pairs != []
    ensures Join(pairs) ==
      if |pairs| == 1 then PairText(pairs[0]) else PairText(pairs[0]) + ("," + Join(pairs[1..]))
  {
  }

  lemma BehindComma(a: string, b: string, c: char)
    requires c in a + ("," + b) && c !in a && c != ','
    ensures c in b
  {
    var i :| 0 <= i < |a| + 1 + |b| && (a + ("," + b))[i] == c;
    assert forall j :: 0 <= j < |a| ==> (a + ("," + b))[j] == a[j];
    assert (a + ("," + b))[i] == b[i - |a| - 1];
  }

  /** A closing brace reaches the label text exactly through a value. */
  lemma BraceInText(labels: map<string, string>, names: seq<string>)
    requires Clean(labels) && (forall n :: n in names <==> n in labels)
    ensures '}' in Join(Entries(labels, names)) <==> exists n :: n in labels && '}' in labels[n]
  {
    var pairs := Entries(labels, names);
    if n :| n in labels && '}' in labels[n] {
      var k :| 0 <= k < |names| && names[k] == n;
      JoinedHas(pairs, k, '}');
    }
    if '}' in Join(pairs) {
      JoinedHasOnly(pairs, '}');
      var k :| 0 <= k < |pairs| && ('}' in pairs[k].0 || '}' in pairs[k].1);
      assert names[k] in names && AllWord(names[k]) && !IsWord('}');
    }
  }

  // ----- the whole key -----

  lemma BracedParts(name: string, text: string)
    ensures var key := name + ("{" + text + "}");
      && key == name + ['{'] + (text + "}") && |key| == |name| + |text| + 2
      && key[|name| + 1..|key| - 1] == text && key[|key| - 1] == '}' && key[..|name|] == name
  {
  }

  lemma BracedKey(name: string, text: string)
    requires '{' !in name
    ensures IndexOf(name + ("{" + text + "}"), '{') == |name|
    ensures LabelPart(name + ("{" + text + "}")) == if name != "" && '}' !in text then Some(text) else None
  {
    hide LabelPart;
    BracedParts(name, text);
    IndexOfFirst(name, '{', text + "}");
    LabelPartAt(name + ("{" + text + "}"), |name|, text);
  }

  lemma LabelPartAt(key: string, n: nat, text: string)
    requires IndexOf(key, '{') == n && n + 1 < |key| && key[|key| - 1] == '}' && key[n + 1..|key| - 1] == text
    ensures LabelPart(key) == if n > 0 && '}' !in text then Some(text) else None
  {
  }

  lemma JoinedNotBlank(pairs: seq<Pair>)
    requires pairs != []
    ensures !IsBlank(Join(pairs))
  {
    assert Join(pairs)[|pairs[0].0|] == '=';
  }

  lemma PlainName(name: string)
    requires '{' !in name
    ensures Parse(name) == Parsed(name, None)
  {
    assert IndexOf(name, '{') == |name|;
  }

  /**
   Parsing inverts the key of every clean label set, for any order of its names, exactly
   when there are no labels, or the name and all label names are not empty and no value
   holds a closing brace.
   */
  lemma ParseInvertsKeyIff(name: string, labels: map<string, string>, names: seq<string>)
    requires '{' !in name && Clean(labels) && (forall n :: n in names <==> n in labels)
    ensures Parse(KeyText(name, labels, names)) == Parsed(name, if labels == map[] then None else Some(labels)) <==>
      (labels == map[] || (name != "" && "" !in labels && forall n :: n in labels ==> '}' !in labels[n]))
  {
    if labels == map[] {
      PlainName(name);
    } else {
      LabelledKey(name, labels, names);
    }
  }

  lemma LabelledKey(name: string, labels: map<string, string>, names: seq<string>)
    requires '{' !in name && Clean(labels) && labels != map[] && (forall n :: n in names <==> n in labels)
    ensures Parse(KeyText(name, labels, names)) == Parsed(name, Some(labels)) <==>
      name != "" && "" !in labels && forall n :: n in labels ==> '}' !in labels[n]
  {
    var text := Join(Entries(labels, names));
    var n :| n in labels;
    assert names != [];
    BracedKey(name, text);
    BraceInText(labels, names);
    JoinedNotBlank(Entries(labels, names));
    var key := KeyText(name, labels, names);
    if name != "" && '}' !in text {
      assert key[..|name|] == name;
      assert Parse(key) == Parsed(name, Some(MapOf(ScanPairs(text))));
      if "" !in labels {
        CleanEntries(labels, names);
        EntriesGiveLabels(labels, names);
      } else {
        assert "" !in MapOf(ScanPairs(text));
      }
    }
  }

  /** The recorded series come back from their keys. */
  lemma ParseInvertsMetricKey(name: string, labels: seq<Pair>, redact: string -> string,
                              order: set<string> -> seq<string>)
    requires IsRedaction(redact) && IsOrder(order)
    requires name != ""
    requires forall n :: n in SanitizeLabels(labels, redact) ==> n != "" && '}' !in SanitizeLabels(labels, redact)[n]
    ensures Parse(GetMetricKey(name, labels, redact, order)) ==
      Parsed(SanitizeName(name), if labels == [] then None else Some(SanitizeLabels(labels, redact)))
  {
    var clean := SanitizeLabels(labels, redact);
    SanitizedIsClean(labels, redact);
    ParseInvertsKeyIff(SanitizeName(name), clean, order(clean.Keys));
  }

  /** Two series share a key only if they have the same name and labels, even where parsing fails. */
  lemma KeysIdentifySeries(name: string, labels: map<string, string>, names: seq<string>,
                           other: string, otherLabels: map<string, string>, otherNames: seq<string>)
    requires '{' !in name && Clean(labels) && (forall n :: n in names <==> n in labels)
    requires '{' !in other && Clean(otherLabels) && (forall n :: n in otherNames <==> n in otherLabels)
    requires KeyText(name, labels, names) == KeyText(other, otherLabels, otherNames)
    ensures name == other && labels == otherLabels
  {
    var text, otherText := Join(Entries(labels, names)), Join(Entries(otherLabels, otherNames));
    if labels != map[] { BracedKey(name, text); }
    if otherLabels != map[] { BracedKey(other, otherText); }
    if labels != map[] && otherLabels != map[] {
      SameBraced(name, text, other, otherText);
      CleanPairs(labels, names);
      CleanPairs(otherLabels, otherNames);
      JoinIsInjective(Entries(labels, names), Entries(otherLabels, otherNames));
      EntriesGiveLabels(labels, names);
      EntriesGiveLabels(otherLabels, otherNames);
    }
  }

  // A word, possibly empty, and a value without quotes.
  predicate CleanPair(p: Pair) {
    AllWord(p.0) && '"' !in p.1
  }

  predicate AllClean(pairs: seq<Pair>) {
    forall i :: 0 <= i < |pairs| ==> CleanPair(pairs[i])
  }

  lemma CleanPairs(labels: map<string, string>, names: seq<string>)
    requires Clean(labels) && forall n :: n in names ==> n in labels
    ensures AllClean(Entries(labels, names))
  {
    forall i | 0 <= i < |names| ensures CleanPair(Entries(labels, names)[i]) {
      assert names[i] in names;
    }
  }

  // Cutting at the first '=' and at the next quote gives the pair and what follows it.
  lemma SamePairText(p: Pair, rest: string, q: Pair, other: string)
    requires CleanPair(p) && CleanPair(q) && PairText(p) + rest == PairText(q) + other
    ensures p == q && rest == other
  {
    PairTextThen(p, rest);
    PairTextThen(q, other);
    assert '=' !in p.0 && '=' !in q.0 by { assert !IsWord('='); }
    IndexOfFirst(p.0, '=', "\"" + p.1 + "\"" + rest);
    IndexOfFirst(q.0, '=', "\"" + q.1 + "\"" + other);
    IndexOfFirst(p.1, '"', rest);
    IndexOfFirst(q.1, '"', other);
  }

  /** Joined label texts are equal only for equal pairs, also where a name is empty. */
  lemma {:induction false} JoinIsInjective(a: seq<Pair>, b: seq<Pair>)
    requires AllClean(a) && AllClean(b) && Join(a) == Join(b)
    ensures a == b
    decreases |a|
  {
    if a == [] || b == [] {
      NonEmptyJoin(a);
      NonEmptyJoin(b);
    } else {
      JoinSplits(a);
      JoinSplits(b);
      SamePairText(a[0], AfterFirst(a), b[0], AfterFirst(b));
      TailOf(a);
      TailOf(b);
      hide Join, PairText, AfterFirst, CleanPair;
      if |a| > 1 {
        JoinIsInjective(a[1..], b[1..]);
        SameHeadAndTail(a, b);
      }
    }
  }

  lemma SameHeadAndTail(a: seq<Pair>, b: seq<Pair>)
    requires a != [] && b != [] && a[0] == b[0] && a[1..] == b[1..]
    ensures a == b
  {
    assert a == [a[0]] + a[1..] && b == [b[0]] + b[1..];
  }

  lemma TailOf(pairs: seq<Pair>)
    requires pairs != []
    ensures AfterFirst(pairs) == "" <==> |pairs| == 1
    ensures |pairs| > 1 ==> AfterFirst(pairs)[1..] == Join(pairs[1..])
  {
  }

  function AfterFirst(pairs: seq<Pair>): string
    requires pairs != []
  {
    if |pairs| == 1 then "" else "," + Join(pairs[1..])
  }

  lemma JoinSplits(pairs: seq<Pair>)
    requires pairs != []
    ensures Join(pairs) == PairText(pairs[0]) + AfterFirst(pairs)
  {
    assert PairText(pairs[0]) + "" == PairText(pairs[0]);
  }

  lemma NonEmptyJoin(pairs: seq<Pair>)
    ensures pairs != [] ==> Join(pairs) != ""
  {
    if pairs != [] { JoinSplits(pairs); }
  }

  lemma SameBraced(name: string, text: string, other: string, otherText: string)
    requires |name| == |other| && name + ("{" + text + "}") == other + ("{" + otherText + "}")
    ensures name == other && text == otherText
  {
    var key, n := name + ("{" + text + "}"), |name|;
    assert key[..n] == name && key[n + 1..|key| - 1] == text;
    assert (other + ("{" + otherText + "}"))[..n] == other;
    assert (other + ("{" + otherText + "}"))[n + 1..|key| - 1] == otherText;
  }
}
