/** The ServerQuery response parser (internal/ts3/parser.go): a body is a
    `|`-separated list of items, an item a space-separated list of `key=value`
    or bare `key` tokens, and each item becomes one record. */
module Ts3Parser {
  import opened Errors
  import opened GoStrings
  import opened Ts3Protocol

  /** One decoded item: field name to value. */
  type Record = map<string, string>

  /** A token split at its first `=` (`strings.SplitN(prop, "=", 2)`), both
      halves unescaped; a bare token has the value "". */
  function Field(token: string): (string, string)
  {
    var (k, v) := CutFirst(token, '=');
    (Unescape(k), match v case Some(x) => Unescape(x) case None => "")
  }

  /** The record an item's tokens build, read left to right: empty tokens are
      skipped and a later token overwrites an earlier one with the same key. */
  function Fields(tokens: seq<string>): Record
  {
    if tokens == [] then map[]
    else
      var m := Fields(tokens[..|tokens| - 1]);
      var t := tokens[|tokens| - 1];
      if t == "" then m else m[Field(t).0 := Field(t).1]
  }

  /** The record for one item. */
  function ParseItem(item: string): Record
  {
    Fields(Split(item, ' '))
  }

  /** `Field` read from the result of the cut. */
  lemma FieldOfCut(token: string)
    ensures var (k, v) := CutFirst(token, '=');
      Field(token) == (Unescape(k), if v.Some? then Unescape(v.value) else "")
  {
  }

  /** One record per item, in item order. */
  function Records(items: seq<string>): (rs: seq<Record>)
  {
    seq(|items|, i requires 0 <= i < |items| => ParseItem(items[i]))
  }

  /** `ParseResponse` as a value: no records for the empty body, otherwise
      one record per `|`-separated item. */
  function Parse(body: string): seq<Record>
  {
    if body == "" then [] else Records(Split(body, '|'))
  }

  /** `ParseResponse`: the loops of the Go code, proved to compute `Parse`. */
  method ParseResponse(response: string) returns (result: seq<Record>)
    ensures result == Parse(response)
  {
    if response == "" {
      return [];
    }
    result := [];
    var items := Split(response, '|');
    var i := 0;
    while i < |items|
      invariant 0 <= i <= |items|
      invariant result == Records(items[..i])
    {
      var itemMap := ParseItemFields(items[i]);
      RecordsSnoc(items, i);
      result := result + [itemMap];
      i := i + 1;
    }
    assert items[..i] == items;
  }

  /** The inner loop of `ParseResponse`: the record of one item, token by
      token. */
  method ParseItemFields(item: string) returns (itemMap: Record)
    ensures itemMap == ParseItem(item)
  {
    itemMap := map[];
    var props := Split(item, ' ');
    var j := 0;
    while j < |props|
      invariant 0 <= j <= |props|
      invariant itemMap == Fields(props[..j])
    {
      var prop := props[j];
      assert props[..j + 1] == props[..j] + [prop];
      FieldsSnoc(props[..j], prop);
      if prop != "" {
        var parts := CutFirst(prop, '=');
        var key := Unescape(parts.0);
        var val := "";
        if parts.1.Some? {
          val := Unescape(parts.1.value);
        }
        FieldOfCut(prop);
        itemMap := itemMap[key := val];
      }
      j := j + 1;
    }
    assert props[..j] == props;
  }

  lemma RecordsSnoc(items: seq<string>, i: int)
    requires 0 <= i < |items|
    ensures Records(items[..i + 1]) == Records(items[..i]) + [ParseItem(items[i])]
  {
    assert items[..i + 1] == items[..i] + [items[i]];
    RecordsConcat(items[..i], [items[i]]);
  }

  /** Records of concatenated item lists are concatenated. */
  lemma RecordsConcat(xs: seq<string>, ys: seq<string>)
    ensures Records(xs + ys) == Records(xs) + Records(ys)
  {
    var a, b := Records(xs + ys), Records(xs) + Records(ys);
    assert |a| == |b|;
    forall l | 0 <= l < |a| ensures a[l] == b[l] {
      if l < |xs| {
        assert (xs + ys)[l] == xs[l];
      } else {
        assert (xs + ys)[l] == ys[l - |xs|];
      }
    }
  }

  /** The empty body has no record; any other body has one record more than
      it has `|` separators. */
  lemma ParseCount(body: string)
    ensures |Parse(body)| == if body == "" then 0 else Count(body, '|') + 1
  {
  }

  /** Records come out in item order: the records of `a|b` are those of the
      items of `a` followed by those of the items of `b` (an empty side is one
      empty item, so a trailing `|` gives a trailing empty record). */
  lemma ParseOrder(a: string, b: string)
    ensures Parse(a + "|" + b) == Records(Split(a, '|')) + Records(Split(b, '|'))
  {
    var body := a + "|" + b;
    assert body == a + ['|'] + b;
    assert body != "" by { assert body[|a|] == '|'; }
    SplitConcat(a, b, '|');
    RecordsConcat(Split(a, '|'), Split(b, '|'));
  }

  /** An item made only of spaces, the empty item included, is an empty record. */
  lemma {:induction false} BlankItemIsEmpty(item: string)
    requires forall i :: 0 <= i < |item| ==> item[i] == ' '
    ensures ParseItem(item) == map[]
  {
    BlankSplitsToEmpty(item);
    FieldsOfEmptyTokens(Split(item, ' '));
  }

  lemma {:induction false} BlankSplitsToEmpty(item: string)
    requires forall i :: 0 <= i < |item| ==> item[i] == ' '
    ensures forall i :: 0 <= i < |Split(item, ' ')| ==> Split(item, ' ')[i] == ""
  {
    if item != [] {
      BlankSplitsToEmpty(item[1..]);
    }
  }

  lemma {:induction false} FieldsOfEmptyTokens(tokens: seq<string>)
    requires forall i :: 0 <= i < |tokens| ==> tokens[i] == ""
    ensures Fields(tokens) == map[]
  {
    if tokens != [] {
      FieldsOfEmptyTokens(tokens[..|tokens| - 1]);
    }
  }

  /** One more token: skipped when empty, otherwise its field is written. */
  lemma FieldsSnoc(ts: seq<string>, t: string)
    ensures Fields(ts + [t]) == if t == "" then Fields(ts) else Fields(ts)[Field(t).0 := Field(t).1]
  {
    assert (ts + [t])[..|ts|] == ts;
  }

  lemma UpdateAfterUnion(a: Record, b: Record, k: string, v: string)
    ensures (a + b)[k := v] == a + b[k := v]
  {
  }

  /** Reading two token lists one after the other: the second's fields override the first's. */
  lemma {:induction false} FieldsConcat(xs: seq<string>, ys: seq<string>)
    ensures Fields(xs + ys) == Fields(xs) + Fields(ys)
  {
    if ys == [] {
      assert xs + ys == xs;
    } else {
      var init := ys[..|ys| - 1];
      var t := ys[|ys| - 1];
      FieldsConcat(xs, init);
      assert ys == init + [t];
      assert xs + ys == (xs + init) + [t];
      FieldsSnoc(xs + init, t);
      FieldsSnoc(init, t);
      if t != "" {
        UpdateAfterUnion(Fields(xs), Fields(init), Field(t).0, Field(t).1);
      }
    }
  }

  /** A space between two parts of an item merges their fields, the right part
      winning on a repeated key. */
  lemma ParseItemConcat(a: string, b: string)
    ensures ParseItem(a + " " + b) == ParseItem(a) + ParseItem(b)
  {
    SingleSpaceSplit(a, b);
    FieldsConcat(Split(a, ' '), Split(b, ' '));
  }

  /** Runs of spaces contribute no key: doubling a separator changes nothing. */
  lemma ExtraSpacesIgnored(a: string, b: string)
    ensures ParseItem(a + "  " + b) == ParseItem(a + " " + b)
  {
    DoubleSpaceSplit(a, b);
    SingleSpaceSplit(a, b);
    FieldsSkipEmpty(Split(a, ' '), Split(b, ' '));
  }

  /** One space delimits the tokens of both sides. */
  lemma SingleSpaceSplit(a: string, b: string)
    ensures Split(a + " " + b, ' ') == Split(a, ' ') + Split(b, ' ')
  {
    assert a + " " + b == a + [' '] + b;
    SplitConcat(a, b, ' ');
  }

  /** Two spaces in a row delimit one empty token. */
  lemma DoubleSpaceSplit(a: string, b: string)
    ensures Split(a + "  " + b, ' ') == Split(a, ' ') + ([""] + Split(b, ' '))
  {
    assert a + "  " + b == a + [' '] + ([' '] + b);
    SplitConcat(a, [' '] + b, ' ');
    assert [' '] + b == [] + [' '] + b;
    SplitConcat([], b, ' ');
  }

  /** An empty token between two token lists writes nothing. */
  lemma FieldsSkipEmpty(xs: seq<string>, ys: seq<string>)
    ensures Fields(xs + ([""] + ys)) == Fields(xs + ys)
  {
    FieldsConcat(xs, [""] + ys);
    FieldsConcat([""], ys);
    assert Fields([""]) == map[];
    assert map[] + Fields(ys) == Fields(ys);
    FieldsConcat(xs, ys);
  }

  /** CutFirst splits exactly at the first separator. */
  lemma {:induction false} CutAtFirst(k: string, v: string, sep: char)
    requires sep !in k
    ensures CutFirst(k + [sep] + v, sep) == (k, Some(v))
  {
    var s := k + [sep] + v;
    if k == [] {
      assert s == [sep] + v;
    } else {
      CutAtFirst(k[1..], v, sep);
      assert s[1..] == k[1..] + [sep] + v;
      assert k == [k[0]] + k[1..];
    }
  }

  /** A token is split at its first `=` only; a token without `=` is a flag
      whose value is "". */
  lemma FieldSplit(k: string, v: string, flag: string)
    requires '=' !in k && '=' !in flag
    ensures Field(k + "=" + v) == (Unescape(k), Unescape(v))
    ensures Field(flag) == (Unescape(flag), "")
  {
    assert k + "=" + v == k + ['='] + v;
    CutAtFirst(k, v, '=');
  }

  /** A value may itself hold `=`: only the first one separates. */
  lemma FieldKeepsLaterEquals()
    ensures Field("a=b=c") == ("a", "b=c")
  {
    CutAtFirst("a", "b=c", '=');
    assert "a=b=c" == "a" + ['='] + "b=c";
    UnescapeIdentity("a");
    UnescapeIdentity("b=c");
  }

  /** Whether a token writes `key`: it is not empty and its name is `key`. */
  predicate Carries(token: string, key: string)
  {
    token != "" && Field(token).0 == key
  }

  /** A key is present exactly when some non-empty token carries it. */
  lemma FieldsDomain(tokens: seq<string>, key: string)
    ensures key in Fields(tokens) <==> exists j :: 0 <= j < |tokens| && Carries(tokens[j], key)
  {
    if key in Fields(tokens) {
      var j := FieldsWitness(tokens, key);
    }
    if exists j :: 0 <= j < |tokens| && Carries(tokens[j], key) {
      var j :| 0 <= j < |tokens| && Carries(tokens[j], key);
      FieldsCarried(tokens, key, j);
    }
  }

  /** A present key was written by some token. */
  lemma {:induction false} FieldsWitness(tokens: seq<string>, key: string) returns (j: int)
    requires key in Fields(tokens)
    ensures 0 <= j < |tokens| && Carries(tokens[j], key)
  {
    var last := |tokens| - 1;
    if Carries(tokens[last], key) {
      j := last;
    } else {
      var init := tokens[..last];
      j := FieldsWitness(init, key);
      assert tokens[j] == init[j];
    }
  }

  /** A key some token writes is present. */
  lemma {:induction false} FieldsCarried(tokens: seq<string>, key: string, j: int)
    requires 0 <= j < |tokens| && Carries(tokens[j], key)
    ensures key in Fields(tokens)
  {
    var last := |tokens| - 1;
    if j < last {
      var init := tokens[..last];
      assert init[j] == tokens[j];
      FieldsCarried(init, key, j);
    }
  }

  /** With a repeated key, the value of the last token carrying it is kept. */
  lemma {:induction false} FieldsLastWins(tokens: seq<string>, j: int)
    requires 0 <= j < |tokens| && tokens[j] != ""
    requires forall l :: j < l < |tokens| && tokens[l] != "" ==> Field(tokens[l]).0 != Field(tokens[j]).0
    ensures Field(tokens[j]).0 in Fields(tokens)
    ensures Fields(tokens)[Field(tokens[j]).0] == Field(tokens[j]).1
  {
    if j < |tokens| - 1 {
      var init := tokens[..|tokens| - 1];
      assert init[j] == tokens[j];
      forall l | j < l < |init| && init[l] != ""
        ensures Field(init[l]).0 != Field(init[j]).0
      {
        assert init[l] == tokens[l];
      }
      FieldsLastWins(init, j);
    }
  }

  /** The wire form of one field. */
  function EncodeField(kv: (string, string)): string
  {
    Escape(kv.0) + "=" + Escape(kv.1)
  }

  /** The wire form of one item: its fields, escaped, separated by spaces. */
  function EncodeItem(kvs: seq<(string, string)>): string
  {
    Join(seq(|kvs|, i requires 0 <= i < |kvs| => EncodeField(kvs[i])), ' ')
  }

  /** The record a field list denotes, a later field overriding an earlier one. */
  function RecordOf(kvs: seq<(string, string)>): Record
  {
    if kvs == [] then map[] else RecordOf(kvs[..|kvs| - 1])[kvs[|kvs| - 1].0 := kvs[|kvs| - 1].1]
  }

  lemma FieldOfEncoded(kv: (string, string))
    requires '=' !in kv.0
    ensures EncodeField(kv) != ""
    ensures ' ' !in EncodeField(kv) && '|' !in EncodeField(kv)
    ensures Field(EncodeField(kv)) == kv
  {
    var k, v := Escape(kv.0), Escape(kv.1);
    var e := EncodeField(kv);
    assert e == k + ['='] + v;
    EscapeHasNoRawSeparators(kv.0);
    EscapeHasNoRawSeparators(kv.1);
    forall i | 0 <= i < |e|
      ensures e[i] != ' ' && e[i] != '|'
    {
      if i < |k| {
        assert e[i] == k[i];
      } else if i > |k| {
        assert e[i] == v[i - |k| - 1];
      }
    }
    EscapeKeepsUnreserved(kv.0, '=');
    FieldSplit(k, v, "");
    UnescapeEscape(kv.0);
    UnescapeEscape(kv.1);
  }

  lemma {:induction false} FieldsOfEncoded(kvs: seq<(string, string)>)
    requires forall i :: 0 <= i < |kvs| ==> '=' !in kvs[i].0
    ensures Fields(seq(|kvs|, i requires 0 <= i < |kvs| => EncodeField(kvs[i]))) == RecordOf(kvs)
  {
    var tokens := seq(|kvs|, i requires 0 <= i < |kvs| => EncodeField(kvs[i]));
    if kvs != [] {
      var init := kvs[..|kvs| - 1];
      FieldsOfEncoded(init);
      assert tokens[..|tokens| - 1] == seq(|init|, i requires 0 <= i < |init| => EncodeField(init[i]));
      FieldOfEncoded(kvs[|kvs| - 1]);
    }
  }

  /** Round trip: a non-empty list of fields whose names hold no `=`, escaped
      and written as one item, parses back to exactly one record holding
      those fields (the last one winning on a repeated name). */
  lemma ParseEncodedItem(kvs: seq<(string, string)>)
    requires kvs != []
    requires forall i :: 0 <= i < |kvs| ==> '=' !in kvs[i].0
    ensures Parse(EncodeItem(kvs)) == [RecordOf(kvs)]
  {
    var tokens := seq(|kvs|, i requires 0 <= i < |kvs| => EncodeField(kvs[i]));
    var item := EncodeItem(kvs);
    forall i | 0 <= i < |tokens|
      ensures tokens[i] != "" && ' ' !in tokens[i] && '|' !in tokens[i]
    {
      FieldOfEncoded(kvs[i]);
    }
    JoinNonEmpty(tokens, ' ');
    JoinAvoids(tokens, ' ', '|');
    SplitNoSeparator(item, '|');
    SplitJoin(tokens, ' ');
    FieldsOfEncoded(kvs);
  }

  /** The one-field case: `Escape(k)=Escape(v)` parses to `{k: v}`. */
  lemma ParseEncodedField(k: string, v: string)
    requires '=' !in k
    ensures Parse(Escape(k) + "=" + Escape(v)) == [map[k := v]]
  {
    ParseEncodedItem([(k, v)]);
    assert EncodeItem([(k, v)]) == Escape(k) + "=" + Escape(v);
  }

  lemma {:induction false} JoinNonEmpty(parts: seq<string>, sep: char)
    requires |parts| >= 1 && parts[0] != ""
    ensures Join(parts, sep) != ""
  {
  }

  lemma {:induction false} JoinAvoids(parts: seq<string>, sep: char, c: char)
    requires c != sep
    requires forall i :: 0 <= i < |parts| ==> c !in parts[i]
    ensures c !in Join(parts, sep)
  {
    if |parts| > 1 {
      JoinAvoids(parts[1..], sep, c);
    }
  }
}
