/**
 What becomes of names, labels and values in a metric key (src/lib/metrics.ts), character
 by character.
 */
module MetricText {
  import opened Sequences
  import opened MetricKeys

  /** In a metric name letters, digits, underscores and colons stay where they are; all else becomes an underscore. */
  lemma NameKeeps(name: string, i: nat)
    requires i < |name|
    ensures var c := name[i];
      SanitizeName(name)[i] ==
        if 'a' <= c <= 'z' || 'A' <= c <= 'Z' || '0' <= c <= '9' || c == '_' || c == ':' then c else '_'
  {
  }

  /** In a label name colons become underscores as well. */
  lemma LabelNameKeeps(name: string, i: nat)
    requires i < |name|
    ensures var c := name[i];
      SanitizeLabelName(name)[i] == if 'a' <= c <= 'z' || 'A' <= c <= 'Z' || '0' <= c <= '9' || c == '_' then c else '_'
  {
  }

  /** A name of allowed characters is kept. */
  lemma CleanNameStays(name: string)
    requires AllWord(name)
    ensures SanitizeName(name) == name && SanitizeLabelName(name) == name
  {
  }

  /** Control characters, quotes and backslashes are dropped from a value, one by one; the others stay, in order. */
  lemma {:induction false} StripsOneByOne(v: string, c: char)
    ensures StripValue(v + [c]) ==
      if c <= '\U{1F}' || c == '\U{7F}' || c == '"' || c == '\\' then StripValue(v) else StripValue(v) + [c]
  {
    if v == "" {
      assert (v + [c])[1..] == "" && v + [c] == [c];
    } else {
      assert (v + [c])[1..] == v[1..] + [c];
      StripsOneByOne(v[1..], c);
    }
  }

  lemma {:induction false} CleanValueStays(v: string)
    requires forall i :: 0 <= i < |v| ==> '\U{20}' <= v[i] && v[i] != '\U{7F}' && v[i] != '"' && v[i] != '\\'
    ensures StripValue(v) == v
  {
    if v != "" {
      CleanValueStays(v[1..]);
      assert v == [v[0]] + v[1..];
    }
  }

  /** A label's value is that of the last label with the same sanitized name. */
  lemma {:induction false} LastLabelWins(labels: seq<Pair>, redact: string -> string, i: nat)
    requires i < |labels|
    requires forall j :: i < j < |labels| ==> SanitizeLabelName(labels[j].0) != SanitizeLabelName(labels[i].0)
    ensures var name := SanitizeLabelName(labels[i].0);
      name in SanitizeLabels(labels, redact) && SanitizeLabels(labels, redact)[name] == redact(StripValue(labels[i].1))
    decreases |labels|
  {
    if i < |labels| - 1 {
      LastLabelWins(labels[..|labels| - 1], redact, i);
    }
  }

  /** There are no other labels. */
  lemma {:induction false} NoOtherLabels(labels: seq<Pair>, redact: string -> string, name: string) returns (i: nat)
    requires name in SanitizeLabels(labels, redact)
    ensures i < |labels| && SanitizeLabelName(labels[i].0) == name
    decreases |labels|
  {
    i := |labels| - 1;
    if SanitizeLabelName(labels[i].0) != name {
      i := NoOtherLabels(labels[..i], redact, name);
    }
  }

  /** Labels that are clean already come back from the registry as they were given. */
  lemma CleanLabelStays(labels: seq<Pair>, redact: string -> string, i: nat)
    requires i < |labels| && AllWord(labels[i].0) && StripValue(labels[i].1) == labels[i].1
    requires redact(labels[i].1) == labels[i].1
    requires forall j :: i < j < |labels| ==> SanitizeLabelName(labels[j].0) != labels[i].0
    ensures labels[i].0 in SanitizeLabels(labels, redact) && SanitizeLabels(labels, redact)[labels[i].0] == labels[i].1
  {
    CleanNameStays(labels[i].0);
    LastLabelWins(labels, redact, i);
  }

  /** How a key looks. */
  lemma KeyLooks(a: string, x: string, b: string, y: string, name: string)
    requires a != b
    ensures KeyText(name, map[], []) == name
    ensures KeyText(name, map[a := x], [a]) == name + "{" + a + "=\"" + x + "\"}"
    ensures KeyText(name, map[a := x, b := y], [a, b]) == name + "{" + a + "=\"" + x + "\"," + b + "=\"" + y + "\"}"
  {
    var one, two := map[a := x], map[a := x, b := y];
    assert Entries(one, [a]) == [(a, x)] && Entries(two, [a, b]) == [(a, x), (b, y)];
    hide Entries;
    JoinLooks((a, x), (b, y));
    assert a in one && a in two;
  }

  lemma JoinLooks(p: Pair, q: Pair)
    ensures Join([p]) == p.0 + "=\"" + p.1 + "\""
    ensures Join([p, q]) == p.0 + "=\"" + p.1 + "\"," + q.0 + "=\"" + q.1 + "\""
  {
    assert [p, q][1..] == [q];
    assert Join([p, q]) == PairText(p) + ("," + PairText(q));
  }
}
