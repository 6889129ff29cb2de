/**
  The service configuration and the parsers for its two override lists.
  An override list is text such as `127.0.0.1=100;abc123=200`: segments
  separated by `;`, each `identifier=value`.
 */
module Config {
  import opened Wrappers
  import opened Strings
  import opened Numbers

  /** `time.Duration`: a count of nanoseconds. */
  type Duration = int

  /** The process-wide settings, built once at start-up and never changed. */
  datatype Config = Config(
    redisAddress: string,
    redisPassword: string,
    redisDB: int,
    defaultIPMaxReqPerSec: int,
    defaultTokenMaxReqPerSec: int,
    defaultIPBlockDuration: Duration,
    defaultTokenBlockDuration: Duration,
    customMaxReqPerSec: map<string, int>,
    customBlockDuration: map<string, Duration>)

  /** A Go-style parser of one value: the value, and an error that is None on success. */
  type Parser<T> = string -> (T, Option<ParseError>)

  /** `stringToInt`: the number on success, zero and the error otherwise. */
  function StringToInt(value: string): (r: (int, Option<ParseError>))
    ensures r.1.None? <==> Atoi(value).Ok?
    ensures r.1.None? ==> r.0 == Atoi(value).value
    ensures r.1.Some? ==> r.0 == 0 && r.1.value == Atoi(value).error
  {
    match Atoi(value)
    case Ok(n) => (n, None)
    case Err(e) => (0, Some(e))
  }

  /** `stringToDuration`: the duration on success, zero and the error otherwise. */
  function StringToDuration(value: string): (r: (Duration, Option<ParseError>))
    ensures r.1.None? <==> ParseDuration(value).Ok?
    ensures r.1.None? ==> r.0 == ParseDuration(value).value
    ensures r.1.Some? ==> r.0 == 0 && r.1.value == InvalidDuration(value)
  {
    match ParseDuration(value)
    case Ok(d) => (d, None)
    case Err(e) => (0, Some(e))
  }

  /**
    The (identifier, value text) entries of a list of segments, in order: one
    for each segment that splits on `=` into exactly two parts; every other
    segment is skipped.
   */
  function Entries(pairs: seq<string>): seq<(string, string)>
  {
    if pairs == [] then []
    else
      var kv := Split(pairs[0], '=');
      (if |kv| == 2 then [(kv[0], kv[1])] else []) + Entries(pairs[1..])
  }

  /**
    Adds the entries to `acc` from first to last, each parsed value stored
    under its identifier; the first value that does not parse ends it with
    that error and no map.
   */
  function Apply<T>(es: seq<(string, string)>, parse: Parser<T>, acc: map<string, T>): (map<string, T>, Option<ParseError>)
  {
    if es == [] then (acc, None)
    else
      var (v, e) := parse(es[0].1);
      if e.Some? then (map[], e) else Apply(es[1..], parse, acc[es[0].0 := v])
  }

  lemma EntriesStep(pairs: seq<string>, i: nat)
    requires i < |pairs|
    ensures var kv := Split(pairs[i], '=');
      Entries(pairs[i..]) == (if |kv| == 2 then [(kv[0], kv[1])] else []) + Entries(pairs[i + 1..])
  {
    assert pairs[i..][1..] == pairs[i + 1..];
  }

  lemma ApplyStep<T>(e: (string, string), rest: seq<(string, string)>, parse: Parser<T>, acc: map<string, T>)
    ensures Apply([e] + rest, parse, acc) ==
      if parse(e.1).1.Some? then (map[], parse(e.1).1) else Apply(rest, parse, acc[e.0 := parse(e.1).0])
  {
    assert ([e] + rest)[1..] == rest;
  }

  /** What `parseCustomMaxReqPerSec` and `parseCustomBlockDuration` compute. */
  function ParseOverrides<T>(customSettings: string, parse: Parser<T>): (map<string, T>, Option<ParseError>)
  {
    Apply(Entries(Split(customSettings, ';')), parse, map[])
  }

  /**
    The loop `parseCustomMaxReqPerSec` and `parseCustomBlockDuration` share:
    split on `;`, keep the segments that split on `=` into exactly two
    parts, parse each kept value with `parse` and store it under its key,
    and return an empty map with the error of the first value that fails.
   */
  method ParseList<T>(customSettings: string, parse: Parser<T>) returns (result: map<string, T>, err: Option<ParseError>)
    ensures (result, err) == ParseOverrides(customSettings, parse)
  {
    result := map[];
    var pairs := Split(customSettings, ';');
    var i := 0;
    while i < |pairs|
      invariant 0 <= i <= |pairs|
      invariant Apply(Entries(pairs[i..]), parse, result) == ParseOverrides(customSettings, parse)
    {
      EntriesStep(pairs, i);
      var kv := Split(pairs[i], '=');
      if |kv| == 2 {
        ApplyStep((kv[0], kv[1]), Entries(pairs[i + 1..]), parse, result);
        var (value, e) := parse(kv[1]);
        if e.Some? {
          return map[], e;
        }
        result := result[kv[0] := value];
      } else {
        assert Entries(pairs[i..]) == Entries(pairs[i + 1..]);
      }
      i := i + 1;
    }
    err := None;
  }

  /** `parseCustomMaxReqPerSec`: the override list of request limits. */
  method ParseCustomMaxReqPerSec(customSettings: string) returns (result: map<string, int>, err: Option<ParseError>)
    ensures (result, err) == ParseOverrides(customSettings, StringToInt)
  {
    result, err := ParseList(customSettings, StringToInt);
  }

  /** `parseCustomBlockDuration`: the override list of block durations. */
  method ParseCustomBlockDuration(customSettings: string) returns (result: map<string, Duration>, err: Option<ParseError>)
    ensures (result, err) == ParseOverrides(customSettings, StringToDuration)
  {
    result, err := ParseList(customSettings, StringToDuration);
  }

  // Properties of the override-list parsers

  /** The identifiers named by a list of entries. */
  function KeySet(es: seq<(string, string)>): set<string>
  {
    set i | 0 <= i < |es| :: es[i].0
  }

  /** No later entry names the same identifier as entry `i`. */
  predicate IsLastFor(es: seq<(string, string)>, i: nat)
    requires i < |es|
  {
    forall j :: i < j < |es| ==> es[j].0 != es[i].0
  }

  /** A segment contributes the entry (k, v) exactly when it is `k=v` with no other `=`. */
  lemma SegmentEntry(p: string, k: string, v: string)
    ensures (|Split(p, '=')| == 2 && Split(p, '=')[0] == k && Split(p, '=')[1] == v)
        <==> ('=' !in k && '=' !in v && p == k + "=" + v)
  {
    SplitInTwo(p, '=');
    if '=' !in k && '=' !in v && p == k + "=" + v {
      SplitAtFirst(k, '=', v);
      SplitNoSeparator(v, '=');
    }
  }

  /**
    The entries of a list of segments are exactly the pairs (k, v) without `=`
    such that `k=v` is one of the segments: the identifier is the whole text
    left of the `=`, untrimmed, and segments with no `=` or with several are
    skipped.
   */
  lemma {:induction false} EntriesExactly(pairs: seq<string>)
    ensures forall e :: e in Entries(pairs) <==> '=' !in e.0 && '=' !in e.1 && e.0 + "=" + e.1 in pairs
  {
    if pairs != [] {
      EntriesExactly(pairs[1..]);
      var kv := Split(pairs[0], '=');
      var head := if |kv| == 2 then [(kv[0], kv[1])] else [];
      assert Entries(pairs) == head + Entries(pairs[1..]);
      assert pairs == [pairs[0]] + pairs[1..];
      forall e: (string, string)
        ensures e in head <==> '=' !in e.0 && '=' !in e.1 && e.0 + "=" + e.1 == pairs[0]
      {
        SegmentEntry(pairs[0], e.0, e.1);
      }
    }
  }

  /** Applying the entries succeeds exactly when every entry's value parses. */
  lemma {:induction false} ApplySucceedsIff<T>(es: seq<(string, string)>, parse: Parser<T>, acc: map<string, T>)
    ensures Apply(es, parse, acc).1.None? <==> forall i :: 0 <= i < |es| ==> parse(es[i].1).1.None?
  {
    if es != [] {
      ApplySucceedsIff(es[1..], parse, acc[es[0].0 := parse(es[0].1).0]);
      assert forall i :: 1 <= i < |es| ==> es[1..][i - 1] == es[i];
    }
  }

  /** On failure there is no map, and the error is that of the first value that does not parse. */
  lemma {:induction false} ApplyFailure<T>(es: seq<(string, string)>, parse: Parser<T>, acc: map<string, T>)
    ensures Apply(es, parse, acc).1.Some? ==>
      && Apply(es, parse, acc).0 == map[]
      && exists i :: 0 <= i < |es| && parse(es[i].1).1 == Apply(es, parse, acc).1
                     && forall j :: 0 <= j < i ==> parse(es[j].1).1.None?
  {
    if es != [] && parse(es[0].1).1.None? {
      var rest := es[1..];
      ApplyFailure(rest, parse, acc[es[0].0 := parse(es[0].1).0]);
      if Apply(es, parse, acc).1.Some? {
        var i :| 0 <= i < |rest| && parse(rest[i].1).1 == Apply(es, parse, acc).1
                 && forall j :: 0 <= j < i ==> parse(rest[j].1).1.None?;
        assert rest[i] == es[i + 1];
        assert forall j :: 1 <= j < i + 1 ==> rest[j - 1] == es[j];
      }
    }
  }

  /**
    On success the map holds the identifiers of `acc` and of the entries; an
    identifier's value is the parse of its LAST entry, and an identifier no
    entry names keeps its value from `acc`.
   */
  lemma {:induction false} ApplyMap<T>(es: seq<(string, string)>, parse: Parser<T>, acc: map<string, T>)
    ensures var (m, err) := Apply(es, parse, acc);
      err.None? ==>
        && m.Keys == acc.Keys + KeySet(es)
        && (forall i :: 0 <= i < |es| && IsLastFor(es, i) ==> m[es[i].0] == parse(es[i].1).0)
        && (forall k :: k in acc && k !in KeySet(es) ==> m[k] == acc[k])
  {
    if es != [] && parse(es[0].1).1.None? {
      var rest := es[1..];
      var acc' := acc[es[0].0 := parse(es[0].1).0];
      ApplyMap(rest, parse, acc');
      assert KeySet(es) == {es[0].0} + KeySet(rest) by {
        forall k | k in KeySet(es) ensures k in {es[0].0} + KeySet(rest) {
          var i :| 0 <= i < |es| && es[i].0 == k;
          if i > 0 { assert rest[i - 1] == es[i]; }
        }
        forall k | k in KeySet(rest) ensures k in KeySet(es) {
          var i :| 0 <= i < |rest| && rest[i].0 == k;
          assert es[i + 1] == rest[i];
        }
      }
      var m := Apply(es, parse, acc).0;
      if Apply(es, parse, acc).1.None? {
        assert m == Apply(rest, parse, acc').0;
        forall i | 0 <= i < |es| && IsLastFor(es, i)
          ensures m[es[i].0] == parse(es[i].1).0
        {
          if i > 0 {
            assert rest[i - 1] == es[i];
            assert IsLastFor(rest, i - 1) by {
              forall j | i - 1 < j < |rest| ensures rest[j].0 != rest[i - 1].0 {
                assert rest[j] == es[j + 1];
              }
            }
          }
        }
      }
    }
  }

  /**
    What the override parsers promise about a whole list: the parse succeeds
    exactly when every kept value parses; a failure yields no map and the
    error of the first bad value; a success yields exactly the kept
    identifiers, each with the value of its last kept segment.
   */
  lemma ParseOverridesSpec<T>(customSettings: string, parse: Parser<T>)
    ensures var (m, err) := ParseOverrides(customSettings, parse);
      var es := Entries(Split(customSettings, ';'));
      && (err.None? <==> forall i :: 0 <= i < |es| ==> parse(es[i].1).1.None?)
      && (err.Some? ==> m == map[] && exists i :: 0 <= i < |es| && parse(es[i].1).1 == err
                                          && forall j :: 0 <= j < i ==> parse(es[j].1).1.None?)
      && (err.None? ==> m.Keys == KeySet(es))
      && (err.None? ==> forall i :: 0 <= i < |es| && IsLastFor(es, i) ==> m[es[i].0] == parse(es[i].1).0)
  {
    var es := Entries(Split(customSettings, ';'));
    ApplySucceedsIff(es, parse, map[]);
    ApplyFailure(es, parse, map[]);
    ApplyMap(es, parse, map[]);
  }

  /** The empty setting is an empty override map, not an error. */
  lemma ParseOverridesEmpty<T>(parse: Parser<T>)
    ensures ParseOverrides("", parse) == (map[], None)
  {
    assert Split("", ';') == [""];
    assert Split("", '=') == [""];
    assert Entries([""]) == [] + Entries([""][1..]);
  }

  /** The limits list of the configuration test: an address and a token. */
  lemma ConfigTestMaxReqPerSec()
    ensures ParseOverrides("127.0.0.1=100;abc123=200", StringToInt)
         == (map["127.0.0.1" := 100, "abc123" := 200], None)
  {
    LimitsTestSegments();
    LimitsTestValues();
    ApplyTwo("127.0.0.1", "100", "abc123", "200", StringToInt);
  }

  /** The block-duration list of the configuration test. */
  lemma ConfigTestBlockDuration()
    ensures ParseOverrides("127.0.0.1=10s;abc123=20s", StringToDuration)
         == (map["127.0.0.1" := 10 * Second, "abc123" := 20 * Second], None)
  {
    DurationsTestSegments();
    DurationsTestValues();
    ApplyTwo("127.0.0.1", "10s", "abc123", "20s", StringToDuration);
  }

  lemma LimitsTestSegments()
    ensures Entries(Split("127.0.0.1=100;abc123=200", ';')) == [("127.0.0.1", "100"), ("abc123", "200")]
  {
    assert "127.0.0.1=100;abc123=200" == "127.0.0.1" + "=" + "100" + ";" + "abc123" + "=" + "200";
    TwoSegments("127.0.0.1", "100", "abc123", "200");
  }

  lemma DurationsTestSegments()
    ensures Entries(Split("127.0.0.1=10s;abc123=20s", ';')) == [("127.0.0.1", "10s"), ("abc123", "20s")]
  {
    assert "127.0.0.1=10s;abc123=20s" == "127.0.0.1" + "=" + "10s" + ";" + "abc123" + "=" + "20s";
    TwoSegments("127.0.0.1", "10s", "abc123", "20s");
  }

  lemma LimitsTestValues()
    ensures StringToInt("100") == (100, None) && StringToInt("200") == (200, None)
  {
    assert Digits(100) == "100";
    assert Digits(200) == "200";
    AtoiFormatInt(100);
    AtoiFormatInt(200);
  }

  lemma DurationsTestValues()
    ensures StringToDuration("10s") == (10 * Second, None) && StringToDuration("20s") == (20 * Second, None)
  {
    assert "10s" == Digits(10) + "s";
    assert "20s" == Digits(20) + "s";
    ParseDurationComponent(10, "s");
    ParseDurationComponent(20, "s");
  }

  lemma ApplyTwo<T>(k1: string, v1: string, k2: string, v2: string, parse: Parser<T>)
    ensures Apply([(k1, v1), (k2, v2)], parse, map[]) ==
      if parse(v1).1.Some? then (map[], parse(v1).1)
      else if parse(v2).1.Some? then (map[], parse(v2).1)
      else (map[k1 := parse(v1).0][k2 := parse(v2).0], None)
  {
    ApplyStep((k1, v1), [(k2, v2)], parse, map[]);
    ApplyStep((k2, v2), [], parse, map[k1 := parse(v1).0]);
    assert [(k1, v1), (k2, v2)] == [(k1, v1)] + [(k2, v2)];
    assert [(k2, v2)] == [(k2, v2)] + [];
  }

  /** The entry a single well-formed segment `k=v` contributes. */
  lemma OneEntry(k: string, v: string, rest: seq<string>)
    requires '=' !in k && '=' !in v
    ensures Entries([k + "=" + v] + rest) == [(k, v)] + Entries(rest)
  {
    SegmentEntry(k + "=" + v, k, v);
    assert ([k + "=" + v] + rest)[1..] == rest;
  }

  /** Entries of a two-segment list `k1=v1;k2=v2`. */
  lemma TwoSegments(k1: string, v1: string, k2: string, v2: string)
    requires '=' !in k1 && '=' !in v1 && '=' !in k2 && '=' !in v2
    requires ';' !in k1 && ';' !in v1 && ';' !in k2 && ';' !in v2
    ensures Entries(Split(k1 + "=" + v1 + ";" + k2 + "=" + v2, ';')) == [(k1, v1), (k2, v2)]
  {
    var a, b := k1 + "=" + v1, k2 + "=" + v2;
    assert ';' !in a && ';' !in b;
    assert k1 + "=" + v1 + ";" + k2 + "=" + v2 == a + [';'] + b;
    SplitAtFirst(a, ';', b);
    SplitNoSeparator(b, ';');
    assert Split(a + [';'] + b, ';') == [a] + [b];
    OneEntry(k2, v2, []);
    OneEntry(k1, v1, [b]);
  }

  /** Printed integers contain neither `=` nor `;`, so they can stand as override values. */
  lemma FormatIntPlain(n: int)
    ensures '=' !in FormatInt(n) && ';' !in FormatInt(n)
  {
    var ds := Digits(if n < 0 then -n else n);
    forall i | 0 <= i < |ds|
      ensures ds[i] != '=' && ds[i] != ';'
    {
      assert IsDigit(ds[i]);
    }
    assert FormatInt(n) == if n < 0 then "-" + ds else ds;
  }

  /** One value that does not parse rejects the whole list, even after a good one. */
  lemma BadValueFailsList(k1: string, n: int, k2: string, v: string)
    requires '=' !in k1 && ';' !in k1 && '=' !in k2 && ';' !in k2 && '=' !in v && ';' !in v
    requires IsInt64(n) && Atoi(v).Err?
    ensures ParseOverrides(k1 + "=" + FormatInt(n) + ";" + k2 + "=" + v, StringToInt) == (map[], Some(Atoi(v).error))
  {
    FormatIntPlain(n);
    AtoiFormatInt(n);
    TwoSegments(k1, FormatInt(n), k2, v);
    ApplyTwo(k1, FormatInt(n), k2, v, StringToInt);
  }

  /** A later segment for the same identifier wins. */
  lemma LaterDuplicateWins(k: string, a: int, b: int)
    requires '=' !in k && ';' !in k && IsInt64(a) && IsInt64(b)
    ensures ParseOverrides(k + "=" + FormatInt(a) + ";" + k + "=" + FormatInt(b), StringToInt) == (map[k := b], None)
  {
    FormatIntPlain(a);
    FormatIntPlain(b);
    AtoiFormatInt(a);
    AtoiFormatInt(b);
    TwoSegments(k, FormatInt(a), k, FormatInt(b));
    ApplyTwo(k, FormatInt(a), k, FormatInt(b), StringToInt);
    assert map[k := a][k := b] == map[k := b];
  }

  /** Segments with no `=` or with two are skipped, even when their value would not parse. */
  lemma MalformedSegmentsSkipped()
    ensures ParseOverrides("b;c=x=4", StringToInt) == (map[], None)
  {
    MalformedEntries();
  }

  lemma MalformedEntries()
    ensures Entries(Split("b;c=x=4", ';')) == []
  {
    assert "b;c=x=4" == "b" + ";" + "c=x=4";
    assert Count("b", '=') == 0 && Count("c=x=4", '=') == 2;
    SkippedSegments("b", "c=x=4");
  }

  /** Two segments that do not hold exactly one `=` contribute nothing. */
  lemma SkippedSegments(p: string, q: string)
    requires ';' !in p && ';' !in q
    requires Count(p, '=') != 1 && Count(q, '=') != 1
    ensures Entries(Split(p + ";" + q, ';')) == []
  {
    SplitAtFirst(p, ';', q);
    SplitNoSeparator(q, ';');
    assert p + ";" + q == p + [';'] + q;
    SplitLength(p, '=');
    SplitLength(q, '=');
    assert Entries([p, q]) == [] + Entries([q]);
    assert Entries([q]) == [] + Entries([]);
  }
}
