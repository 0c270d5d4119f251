/** The text form of a usage baseline: UsageBaseline.String and ParseUsageBaseline of
    internal/config/config.go. */
module BaselineText {
  import opened Prelude
  import opened Text
  import opened UsageBaselines

  /** The timestamp text (section 5.6 of RFC 3339) of whole seconds. */
  datatype TimeText = TimeText(format: Time -> string, parse: string -> Option<Time>)

  ghost predicate IsTimeText(tt: TimeText) {
    forall t {:trigger tt.format(t)} :: t % SECOND == 0 ==>
      tt.parse(tt.format(t)) == Some(t) && Trimmed(tt.format(t)) && ',' !in tt.format(t)
  }

  datatype ParseError = WrongShape | BadTime | UnexpectedField(part: string) | BadCount(field: Field)

  datatype Result<T> = Ok(value: T) | Err(error: ParseError)

  datatype Field = Data | Command | Wake

  function KeyOf(f: Field): string {
    match f
    case Data => "data"
    case Command => "command"
    case Wake => "wake"
  }

  function Named(key: string): (f: Option<Field>)
    ensures f.Some? <==> key == "data" || key == "command" || key == "wake"
    ensures f.Some? ==> KeyOf(f.value) == key
  {
    if key == "data" then Some(Data)
    else if key == "command" then Some(Command)
    else if key == "wake" then Some(Wake)
    else None
  }

  function CountOf(b: UsageBaseline, f: Field): int {
    match f
    case Data => b.data
    case Command => b.command
    case Wake => b.wake
  }

  function SetCount(b: UsageBaseline, f: Field, n: int): UsageBaseline {
    match f
    case Data => b.(data := n)
    case Command => b.(command := n)
    case Wake => b.(wake := n)
  }

  function FieldText(b: UsageBaseline, f: Field): string {
    KeyOf(f) + ['='] + FormatInt(CountOf(b, f))
  }

  /** The canonical form; formatting drops fractions of a second. */
  function ToString(tt: TimeText, b: UsageBaseline): string {
    Join([tt.format(Unix(b.at)), FieldText(b, Data), FieldText(b, Command), FieldText(b, Wake)], ',')
  }

  // ----- The parser -----

  datatype Reading = Unexpected | Invalid(field: Field) | Reads(field: Field, count: nat)

  /** One field, by itself. */
  function ReadField(part: string): Reading {
    var p := Cut(TrimSpace(part), '=');
    if !p.found || Named(p.before).None? then Unexpected
    else
      var n := ParseInt(p.after);
      if n.None? || n.value < 0 then Invalid(Named(p.before).value) else Reads(Named(p.before).value, n.value)
  }

  /** The fields one after the other, each expected at most once. */
  function ReadFields(parts: seq<string>, expected: set<Field>, b: UsageBaseline): Result<UsageBaseline> {
    if parts == [] then Ok(b)
    else
      match ReadField(parts[0])
      case Unexpected => Err(UnexpectedField(parts[0]))
      case Invalid(f) => if f in expected then Err(BadCount(f)) else Err(UnexpectedField(parts[0]))
      case Reads(f, n) =>
        if f in expected then ReadFields(parts[1..], expected - {f}, SetCount(b, f, n))
        else Err(UnexpectedField(parts[0]))
  }

  function Parse(tt: TimeText, raw: string): Result<UsageBaseline> {
    var parts := Split(raw, ',');
    if |parts| != 4 then Err(WrongShape)
    else
      match tt.parse(TrimSpace(parts[0]))
      case None => Err(BadTime)
      case Some(at) => ReadFields(parts[1..], {Data, Command, Wake}, UsageBaseline(at, 0, 0, 0))
  }

  /** The parser's loop: fields seen are deleted from the map of those expected. */
  method ParseUsageBaseline(tt: TimeText, raw: string) returns (r: Result<UsageBaseline>)
    ensures r == Parse(tt, raw)
  {
    hide Tracks, ParseInt, Cut, TrimSpace, Split, Named;
    var parts := Split(raw, ',');
    if |parts| != 4 {
      return Err(WrongShape);
    }
    var at := tt.parse(TrimSpace(parts[0]));
    if at.None? {
      return Err(BadTime);
    }
    var b := UsageBaseline(at.value, 0, 0, 0);
    var fields := map["data" := Data, "command" := Command, "wake" := Wake];
    ghost var expected := {Data, Command, Wake};
    TracksAll();
    for i := 1 to |parts|
      invariant Tracks(fields, expected)
      invariant ReadFields(parts[i..], expected, b) == Parse(tt, raw)
    {
      assert parts[i..][1..] == parts[i + 1..];
      var p := Cut(TrimSpace(parts[i]), '=');
      Tracked(fields, expected, p.before);
      if !p.found || p.before !in fields {
        return Err(UnexpectedField(parts[i]));
      }
      var n := ParseInt(p.after);
      if n.None? || n.value < 0 {
        return Err(BadCount(fields[p.before]));
      }
      b := SetCount(b, fields[p.before], n.value);
      expected := expected - {fields[p.before]};
      fields := fields - {p.before};
    }
    r := Ok(b);
  }

  /** The map holds the expected fields under their keys. */
  ghost predicate Tracks(fields: map<string, Field>, expected: set<Field>) {
    forall key ::
      && (key in fields <==> Named(key).Some? && Named(key).value in expected)
      && (key in fields ==> fields[key] == Named(key).value)
  }

  lemma TracksAll()
    ensures Tracks(map["data" := Data, "command" := Command, "wake" := Wake], {Data, Command, Wake})
  {
    assert "data"[0] != "wake"[0];
  }

  lemma Tracked(fields: map<string, Field>, expected: set<Field>, key: string)
    requires Tracks(fields, expected)
    ensures key in fields <==> Named(key).Some? && Named(key).value in expected
    ensures key in fields ==> fields[key] == Named(key).value && Tracks(fields - {key}, expected - {fields[key]})
  {
  }

  // ----- What is accepted -----

  /** `raw` spells `b`: a time and three fields that read, name different counts and
      give those of `b`. */
  ghost predicate Spells(tt: TimeText, raw: string, b: UsageBaseline) {
    var parts := Split(raw, ',');
    |parts| == 4 && tt.parse(TrimSpace(parts[0])) == Some(b.at) && AllRead(parts[1..], b)
  }

  ghost predicate AllRead(parts: seq<string>, b: UsageBaseline) {
    && (forall i :: 0 <= i < |parts| ==> ReadsInto(parts[i], b))
    && (forall i, j :: 0 <= i < j < |parts| ==> ReadField(parts[i]) != ReadField(parts[j]))
  }

  /** The part gives the count that `b` has for the field it names. */
  ghost predicate ReadsInto(part: string, b: UsageBaseline) {
    ReadField(part).Reads? && ReadField(part).count == CountOf(b, ReadField(part).field)
  }

  lemma ReadsOne(x: string, rest: seq<string>, expected: set<Field>, b: UsageBaseline, r: UsageBaseline)
    ensures ReadFields([x] + rest, expected, b) == Ok(r)
       <==> ReadField(x).Reads? && ReadField(x).field in expected
            && ReadFields(rest, expected - {ReadField(x).field},
                          SetCount(b, ReadField(x).field, ReadField(x).count)) == Ok(r)
  {
    hide ReadField;
    assert ([x] + rest)[1..] == rest;
  }

  lemma ThreeFields(x: string, y: string, z: string, at: Time, b: UsageBaseline)
    requires b.at == at
    ensures ReadFields([x, y, z], {Data, Command, Wake}, UsageBaseline(at, 0, 0, 0)) == Ok(b) <==> AllRead([x, y, z], b)
  {
    hide ReadField;
    var all, zero := {Data, Command, Wake}, UsageBaseline(at, 0, 0, 0);
    ReadsOne(x, [y, z], all, zero, b);
    assert [x] + [y, z] == [x, y, z];
    if ReadField(x).Reads? {
      var f := ReadField(x);
      var one := SetCount(zero, f.field, f.count);
      ReadsOne(y, [z], all - {f.field}, one, b);
      assert [y] + [z] == [y, z];
      if ReadField(y).Reads? {
        var g := ReadField(y);
        ReadsOne(z, [], all - {f.field} - {g.field}, SetCount(one, g.field, g.count), b);
        assert [z] + [] == [z];
      }
    }
  }

  /** The parser accepts exactly the texts that spell a baseline, and returns it. */
  lemma ParseExactly(tt: TimeText, raw: string, b: UsageBaseline)
    ensures Parse(tt, raw) == Ok(b) <==> Spells(tt, raw, b)
  {
    hide ReadField, AllRead, ReadFields, Split, TrimSpace;
    var parts := Split(raw, ',');
    if |parts| == 4 {
      assert parts[1..] == [parts[1], parts[2], parts[3]];
      ThreeFields(parts[1], parts[2], parts[3], b.at, b);
      if Parse(tt, raw) == Ok(b) {
        KeepsTime(parts[1..], {Data, Command, Wake}, UsageBaseline(tt.parse(TrimSpace(parts[0])).value, 0, 0, 0));
      }
    }
  }

  lemma {:induction false} KeepsTime(parts: seq<string>, expected: set<Field>, b: UsageBaseline)
    ensures ReadFields(parts, expected, b).Ok? ==> ReadFields(parts, expected, b).value.at == b.at
  {
    hide ReadField;
    if parts != [] && ReadField(parts[0]).Reads? {
      var f := ReadField(parts[0]);
      KeepsTime(parts[1..], expected - {f.field}, SetCount(b, f.field, f.count));
    }
  }

  /** An accepted text names each count in exactly one of its three fields: any
      duplicate, missing or unknown field is rejected. */
  lemma {:induction false} EachFieldOnce(tt: TimeText, raw: string, f: Field)
    requires Parse(tt, raw).Ok?
    ensures var parts := Split(raw, ',');
            && |parts| == 4
            && (exists i :: 1 <= i < 4 && ReadField(parts[i]).Reads? && ReadField(parts[i]).field == f)
            && (forall i, j :: 1 <= i < j < 4 ==> ReadField(parts[i]).Reads? && ReadField(parts[j]).Reads?
                                                  && ReadField(parts[i]).field != ReadField(parts[j]).field)
  {
    hide ReadField, ReadFields, Split, TrimSpace;
    ParseExactly(tt, raw, Parse(tt, raw).value);
    var parts := Split(raw, ',');
    var b := Parse(tt, raw).value;
    var fields := parts[1..];
    assert fields[0] == parts[1] && fields[1] == parts[2] && fields[2] == parts[3];
    assert ReadsInto(fields[0], b) && ReadsInto(fields[1], b) && ReadsInto(fields[2], b);
    assert ReadField(fields[0]) != ReadField(fields[1]) && ReadField(fields[0]) != ReadField(fields[2])
           && ReadField(fields[1]) != ReadField(fields[2]);
  }

  /** The order of the fields does not matter. */
  lemma {:induction false} OrderIrrelevant(tt: TimeText, raw: string, raw': string, b: UsageBaseline)
    requires Split(raw, ',')[0] == Split(raw', ',')[0]
    requires multiset(Split(raw, ',')[1..]) == multiset(Split(raw', ',')[1..])
    ensures Parse(tt, raw) == Ok(b) <==> Parse(tt, raw') == Ok(b)
  {
    hide ReadField, ReadFields, Parse, Split, TrimSpace, AllRead;
    ParseExactly(tt, raw, b);
    ParseExactly(tt, raw', b);
    SameSize(Split(raw, ',')[1..], Split(raw', ',')[1..]);
    if AllRead(Split(raw, ',')[1..], b) {
      AllReadPermuted(Split(raw, ',')[1..], Split(raw', ',')[1..], b);
    }
    if AllRead(Split(raw', ',')[1..], b) {
      AllReadPermuted(Split(raw', ',')[1..], Split(raw, ',')[1..], b);
    }
  }

  lemma SameSize(s: seq<string>, t: seq<string>)
    requires multiset(s) == multiset(t)
    ensures |s| == |t|
  {
    assert |multiset(s)| == |s| && |multiset(t)| == |t|;
  }

  lemma AllReadPermuted(s: seq<string>, t: seq<string>, b: UsageBaseline)
    requires multiset(s) == multiset(t) && AllRead(s, b)
    ensures AllRead(t, b)
  {
    hide ReadField;
    forall i | 0 <= i < |t|
      ensures ReadsInto(t[i], b)
    {
      assert t[i] in multiset(t);
    }
    forall i, j | 0 <= i < j < |t|
      ensures ReadField(t[i]) != ReadField(t[j])
    {
      if t[i] == t[j] {
        TwiceInMultiset(t, i, j);
        OnceInMultiset(s, t[i], b);
      } else {
        assert t[i] in multiset(s) && t[j] in multiset(s);
        var k :| 0 <= k < |s| && s[k] == t[i];
        var l :| 0 <= l < |s| && s[l] == t[j];
      }
    }
  }

  lemma TwiceInMultiset(t: seq<string>, i: nat, j: nat)
    requires i < j < |t| && t[i] == t[j]
    ensures multiset(t)[t[i]] >= 2
  {
    assert t == t[..i] + [t[i]] + t[i + 1..j] + [t[j]] + t[j + 1..];
  }

  lemma {:induction false} OnceInMultiset(s: seq<string>, x: string, b: UsageBaseline)
    requires AllRead(s, b)
    ensures multiset(s)[x] <= 1
  {
    hide ReadField;
    if s != [] {
      OnceInMultiset(s[1..], x, b);
      assert s == [s[0]] + s[1..];
      if s[0] == x {
        assert x !in s[1..];
      }
    }
  }

  /** A part reads as count `n` of field `f` exactly when, without the spaces around it, it
      is the field's name, an equals sign, and a number that parses to `n`. */
  lemma {:induction false} ReadFieldExactly(part: string, f: Field, n: nat)
    ensures ReadField(part) == Reads(f, n) <==>
              exists number :: TrimSpace(part) == KeyOf(f) + "=" + number && ParseInt(number) == Some(n)
  {
    hide TrimSpace, ParseInt, Named;
    var s := TrimSpace(part);
    var p := Cut(s, '=');
    CutJoins(s, '=');
    KeyText(f);
    if ReadField(part) == Reads(f, n) {
      NamedKey(p.before);
      assert s == KeyOf(f) + "=" + p.after;
    }
    forall number | s == KeyOf(f) + "=" + number && ParseInt(number) == Some(n)
      ensures ReadField(part) == Reads(f, n)
    {
      CutAt(KeyOf(f), '=', number);
      assert KeyOf(f) + ['='] + number == s;
    }
  }

  lemma NamedKey(key: string)
    ensures Named(key).Some? ==> KeyOf(Named(key).value) == key
  {
  }

  // ----- The round trip -----

  /** A field as it is printed reads as its count, or is refused if that is negative. */
  lemma {:induction false} FieldTextReads(b: UsageBaseline, f: Field)
    requires -INT64_LIMIT <= CountOf(b, f) < INT64_LIMIT
    ensures ReadField(FieldText(b, f)) == if CountOf(b, f) < 0 then Invalid(f) else Reads(f, CountOf(b, f))
    ensures ',' !in FieldText(b, f)
  {
    hide ParseInt;
    var number := FormatInt(CountOf(b, f));
    ParseFormat(CountOf(b, f));
    NumberText(CountOf(b, f));
    KeyText(f);
    TrimTrims(FieldText(b, f));
    CutAt(KeyOf(f), '=', number);
  }

  lemma KeyText(f: Field)
    ensures '=' !in KeyOf(f) && ',' !in KeyOf(f) && KeyOf(f) != "" && !IsSpace(KeyOf(f)[0])
    ensures Named(KeyOf(f)) == Some(f)
  {
    assert "data"[0] != "wake"[0];
  }

  lemma NumberText(n: int)
    ensures var s := FormatInt(n); s != [] && ',' !in s && !IsSpace(s[|s| - 1])
  {
    var m := if n < 0 then -n else n;
    DigitsValue(m);
    var digits := Digits(m);
    assert IsDigit(digits[|digits| - 1]);
    assert ',' !in digits;
  }

  lemma ToStringSplits(tt: TimeText, b: UsageBaseline)
    requires IsTimeText(tt)
    requires forall f :: -INT64_LIMIT <= CountOf(b, f) < INT64_LIMIT
    ensures Split(ToString(tt, b), ',')
         == [tt.format(Unix(b.at)), FieldText(b, Data), FieldText(b, Command), FieldText(b, Wake)]
    ensures tt.parse(TrimSpace(tt.format(Unix(b.at)))) == Some(Unix(b.at))
  {
    hide FieldText, TrimSpace, Trimmed, ReadField;
    FieldTextReads(b, Data);
    FieldTextReads(b, Command);
    FieldTextReads(b, Wake);
    TrimTrims(tt.format(Unix(b.at)));
    SplitJoin([tt.format(Unix(b.at)), FieldText(b, Data), FieldText(b, Command), FieldText(b, Wake)], ',');
  }

  /** Printing and parsing returns the baseline to the second, exactly when its counts
      are not negative. */
  lemma RoundTrip(tt: TimeText, b: UsageBaseline)
    requires IsTimeText(tt)
    requires forall f :: -INT64_LIMIT <= CountOf(b, f) < INT64_LIMIT
    ensures Parse(tt, ToString(tt, b)) == Ok(b.(at := Unix(b.at))) <==> forall f :: CountOf(b, f) >= 0
  {
    hide FieldText, TrimSpace, ReadField, Parse, Split, ToString, ReadFields, IsTimeText;
    ToStringSplits(tt, b);
    FieldTextReads(b, Data);
    FieldTextReads(b, Command);
    FieldTextReads(b, Wake);
    var b' := b.(at := Unix(b.at));
    ParseExactly(tt, ToString(tt, b), b');
    var parts := Split(ToString(tt, b), ',');
    assert parts[1..] == [FieldText(b, Data), FieldText(b, Command), FieldText(b, Wake)];
    assert parts[1..][0] == FieldText(b, Data) && parts[1..][1] == FieldText(b, Command)
           && parts[1..][2] == FieldText(b, Wake);
  }

  /** So the text of an applied baseline, by which later loads find it, determines it. */
  lemma TextDeterminesBaseline(tt: TimeText, b: UsageBaseline, c: UsageBaseline)
    requires IsTimeText(tt) && ToString(tt, b) == ToString(tt, c)
    requires b.at % SECOND == 0 && c.at % SECOND == 0
    requires forall f :: 0 <= CountOf(b, f) < INT64_LIMIT && 0 <= CountOf(c, f) < INT64_LIMIT
    ensures b == c
  {
    RoundTrip(tt, b);
    RoundTrip(tt, c);
  }
}
