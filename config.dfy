/** Start-up configuration of the chat gateway (cmd/server/main.go): the
    allow-list of model names, the default model and the downstream
    timeout. */
module Config {
  import opened Wrappers
  import opened Text

  /** One minute in nanoseconds, the unit of Go's time.Duration. */
  const Minute: int := 60_000_000_000

  /** defaultTimeout: two minutes. */
  const DefaultTimeout: int := 2 * Minute

  ghost predicate Distinct<T>(xs: seq<T>)
  {
    forall i, j :: 0 <= i < j < |xs| ==> xs[i] != xs[j]
  }

  /** The index of the first occurrence of x in xs. */
  ghost function FirstIndex<T>(xs: seq<T>, x: T): (r: nat)
    requires x in xs
    ensures r < |xs| && xs[r] == x && x !in xs[..r]
  {
    if xs[0] == x then 0
    else
      var r := FirstIndex(xs[1..], x);
      assert xs[1..][..r] == xs[1..r + 1];
      1 + r
  }

  /** The trim of every piece. */
  function Trims(parts: seq<string>): (t: seq<string>)
    ensures |t| == |parts|
    ensures forall k :: 0 <= k < |parts| ==> t[k] == TrimSpace(parts[k])
  {
    if parts == [] then []
    else Trims(parts[..|parts| - 1]) + [TrimSpace(parts[|parts| - 1])]
  }

  /** xs without its empty strings, in order. */
  function NonEmpty(xs: seq<string>): (r: seq<string>)
    ensures forall x :: x in r <==> x != [] && x in xs
  {
    if xs == [] then []
    else
      var x := xs[|xs| - 1];
      NonEmpty(xs[..|xs| - 1]) + (if x == [] then [] else [x])
  }

  /** The trimmed, non-empty pieces of parts, in order. */
  function Names(parts: seq<string>): seq<string>
  {
    NonEmpty(Trims(parts))
  }

  /** xs with every repetition of an earlier element dropped. */
  function Dedup(xs: seq<string>): (d: seq<string>)
    ensures forall x :: x in d <==> x in xs
    ensures Distinct(d)
  {
    if xs == [] then []
    else
      var init := Dedup(xs[..|xs| - 1]);
      var x := xs[|xs| - 1];
      if x in init then init else init + [x]
  }

  /** The allow-list that parseModelList builds from a configuration value. */
  function ModelList(value: string): seq<string>
  {
    Dedup(Names(Split(value, ',')))
  }

  /** parseModelList: split on commas, trim, drop empty names and names seen
      before. */
  method ParseModelList(value: string) returns (models: seq<string>)
    ensures models == ModelList(value)
  {
    var parts := Split(value, ',');
    models := [];
    var seen: set<string> := {};
    for i := 0 to |parts|
      invariant models == Dedup(Names(parts[..i]))
      invariant forall m :: m in seen <==> m in models
    {
      var name := TrimSpace(parts[i]);
      ModelListStep(parts, i);
      if name == [] {
        continue;
      }
      if name in seen {
        continue;
      }
      seen := seen + {name};
      models := models + [name];
    }
    assert parts[..|parts|] == parts;
  }

  /** containsModel: linear membership test with an early return. */
  method ContainsModel(models: seq<string>, candidate: string) returns (found: bool)
    ensures found <==> candidate in models
  {
    for i := 0 to |models|
      invariant candidate !in models[..i]
    {
      if models[i] == candidate {
        return true;
      }
      assert models[..i + 1] == models[..i] + [models[i]];
    }
    assert models[..|models|] == models;
    return false;
  }

  /** chooseDefaultModel: the trimmed configured default, unless an
      allow-list exists that does not hold it, in which case the first
      allowed name. */
  function ChooseDefaultModel(base: string, allowed: seq<string>): (model: string)
    ensures allowed == [] ==> model == TrimSpace(base)
    ensures allowed != [] ==> model in allowed
    ensures TrimSpace(base) != [] && TrimSpace(base) in allowed ==> model == TrimSpace(base)
    ensures allowed != [] && !(TrimSpace(base) != [] && TrimSpace(base) in allowed) ==> model == allowed[0]
  {
    var trimmed := TrimSpace(base);
    if |allowed| == 0 then trimmed
    else if trimmed != [] && trimmed in allowed then trimmed
    else allowed[0]
  }

  /** parseTimeout, with time.ParseDuration given as an oracle that yields
      the duration in nanoseconds or None for text it rejects. */
  function ParseTimeout(value: string, parseDuration: string -> Option<int>): (d: int)
    ensures d > 0
    ensures AllSpace(value) ==> d == DefaultTimeout
    ensures d == DefaultTimeout || parseDuration(value) == Some(d)
  {
    if TrimSpace(value) == [] then DefaultTimeout
    else
      match parseDuration(value)
      case None => DefaultTimeout
      case Some(parsed) => if parsed <= 0 then DefaultTimeout else parsed
  }

  // ---------------------------------------------------------------------
  // Properties of the allow-list

  /** One iteration of parseModelList's loop. */
  lemma ModelListStep(parts: seq<string>, i: nat)
    requires i < |parts|
    ensures var name := TrimSpace(parts[i]);
      var models := Dedup(Names(parts[..i]));
      Dedup(Names(parts[..i + 1]))
        == if name == [] || name in models then models else models + [name]
  {
    var name := TrimSpace(parts[i]);
    NamesStep(parts, i);
    if name != [] {
      DedupStep(Names(parts[..i]), name);
    } else {
      assert Names(parts[..i + 1]) == Names(parts[..i]);
    }
  }

  lemma DedupStep(xs: seq<string>, x: string)
    ensures Dedup(xs + [x]) == if x in Dedup(xs) then Dedup(xs) else Dedup(xs) + [x]
  {
    assert (xs + [x])[..|xs|] == xs;
  }

  lemma NamesStep(parts: seq<string>, i: nat)
    requires i < |parts|
    ensures var name := TrimSpace(parts[i]);
      Names(parts[..i + 1]) == Names(parts[..i]) + (if name == [] then [] else [name])
  {
    assert parts[..i + 1][..i] == parts[..i];
    var t := Trims(parts[..i]);
    assert Trims(parts[..i + 1]) == t + [TrimSpace(parts[i])];
    assert (t + [TrimSpace(parts[i])])[..|t|] == t;
  }

  /** FirstIndex is determined by its contract. */
  lemma FirstIndexUnique<T>(xs: seq<T>, x: T, r: nat)
    requires r < |xs| && xs[r] == x && x !in xs[..r]
    ensures FirstIndex(xs, x) == r
  {
    var a := FirstIndex(xs, x);
    assert xs[a] == x && x !in xs[..a];
  }

  lemma FirstIndexInPrefix<T>(xs: seq<T>, x: T)
    requires xs != [] && x in xs[..|xs| - 1]
    ensures FirstIndex(xs, x) == FirstIndex(xs[..|xs| - 1], x)
  {
    var init := xs[..|xs| - 1];
    var b := FirstIndex(init, x);
    assert xs[..b] == init[..b];
    FirstIndexUnique(xs, x, b);
  }

  /** Dedup keeps the order of first occurrence. */
  lemma {:induction false} DedupFirstOccurrence(xs: seq<string>, i: nat, j: nat)
    requires i < j < |Dedup(xs)|
    ensures FirstIndex(xs, Dedup(xs)[i]) < FirstIndex(xs, Dedup(xs)[j])
  {
    var n := |xs| - 1;
    var init := xs[..n];
    var di := Dedup(init);
    var d := Dedup(xs);
    assert d[i] == di[i];
    FirstIndexInPrefix(xs, d[i]);
    if j < |di| {
      assert d[j] == di[j];
      FirstIndexInPrefix(xs, d[j]);
      DedupFirstOccurrence(init, i, j);
    } else {
      assert d[j] == xs[n] && xs[n] !in init;
      assert xs[..n + 1] == xs;
    }
  }

  /** A name is in the allow-list exactly when it is the non-empty trim of
      some comma-separated piece of the configuration value. */
  lemma ModelListMembers(value: string, m: string)
    ensures m in ModelList(value) <==> m != [] && m in Trims(Split(value, ','))
  {
  }

  /** Every allowed name is non-empty and equal to its own trim. */
  lemma ModelListNamesTrimmed(value: string)
    ensures forall m :: m in ModelList(value) ==> m != [] && TrimSpace(m) == m
  {
    forall m | m in ModelList(value) ensures m != [] && TrimSpace(m) == m {
      ModelListMembers(value, m);
      var parts := Split(value, ',');
      var k :| 0 <= k < |parts| && Trims(parts)[k] == m;
      TrimSpaceFixesTrimmed(m);
    }
  }

  /** Allowed names keep the order in which they first occur among the
      trimmed, non-empty pieces. */
  lemma ModelListOrder(value: string, i: nat, j: nat)
    requires i < j < |ModelList(value)|
    ensures FirstIndex(Names(Split(value, ',')), ModelList(value)[i])
      < FirstIndex(Names(Split(value, ',')), ModelList(value)[j])
  {
    DedupFirstOccurrence(Names(Split(value, ',')), i, j);
  }

  // ---------------------------------------------------------------------
  // Properties of the start-up choices

  /** The start-up invariant: whenever the allow-list from the environment is
      non-empty, the chosen default model is one of its names, and it is
      always free of surrounding white space. */
  lemma StartupDefaultAllowed(envModel: string, envAllowed: string)
    ensures var allowed := ModelList(envAllowed);
      var model := ChooseDefaultModel(envModel, allowed);
      IsTrimmed(model) && (allowed != [] ==> model in allowed && model != [])
  {
    ModelListNamesTrimmed(envAllowed);
    var allowed := ModelList(envAllowed);
    if allowed != [] {
      assert allowed[0] in allowed;
      TrimSpaceFixesTrimmed(allowed[0]);
    }
  }

  /** A positive duration that the oracle accepts for non-blank text is used
      as it is. */
  lemma ParseTimeoutKeepsPositive(value: string, parseDuration: string -> Option<int>, parsed: int)
    requires !AllSpace(value) && parseDuration(value) == Some(parsed) && parsed > 0
    ensures ParseTimeout(value, parseDuration) == parsed
  {
  }

  // ---------------------------------------------------------------------
  // The allow-list of the package's own test, worked through.

  /** " gpt-oss:20b ,openthaigpt1.5-7b-instruct, gpt-oss:20b ,,llama3 ",
      written piece by piece. */
  const ExampleValue := " gpt-oss:20b " + "," + "openthaigpt1.5-7b-instruct" + "," + " gpt-oss:20b "
                        + "," + "" + "," + "llama3 "
  const ExamplePieces := [" gpt-oss:20b ", "openthaigpt1.5-7b-instruct", " gpt-oss:20b ", "", "llama3 "]

  lemma ExampleSplit()
    ensures Split(ExampleValue, ',') == ExamplePieces
  {
    var p := ExamplePieces;
    JoinFive(p[0], p[1], p[2], p[3], p[4], ",");
    assert [p[0], p[1], p[2], p[3], p[4]] == p;
    forall k | 0 <= k < |p| ensures ',' !in p[k] {
    }
    SplitJoin(p, ',');
  }

  lemma JoinFive(a: string, b: string, c: string, d: string, e: string, sep: string)
    ensures Join([a, b, c, d, e], sep) == a + sep + b + sep + c + sep + d + sep + e
  {
    var de := d + sep + e;
    var cde := c + sep + de;
    var bcde := b + sep + cde;
    JoinCons(d, [e], sep);
    assert [d] + [e] == [d, e];
    JoinCons(c, [d, e], sep);
    assert [c] + [d, e] == [c, d, e];
    JoinCons(b, [c, d, e], sep);
    assert [b] + [c, d, e] == [b, c, d, e];
    JoinCons(a, [b, c, d, e], sep);
    assert [a] + [b, c, d, e] == [a, b, c, d, e];
    ConcatFive(a, b, c, d, e, sep);
  }

  lemma JoinCons(x: string, xs: seq<string>, sep: string)
    requires xs != []
    ensures Join([x] + xs, sep) == x + sep + Join(xs, sep)
  {
    assert ([x] + xs)[1..] == xs;
  }

  lemma ConcatFive(a: string, b: string, c: string, d: string, e: string, sep: string)
    ensures a + sep + (b + sep + (c + sep + (d + sep + e)))
         == a + sep + b + sep + c + sep + d + sep + e
  {
  }

  lemma ExampleTrims()
    ensures Trims(ExamplePieces)
         == ["gpt-oss:20b", "openthaigpt1.5-7b-instruct", "gpt-oss:20b", "", "llama3"]
  {
    var p := ExamplePieces;
    TrimsFive(p[0], p[1], p[2], p[3], p[4]);
    assert [p[0], p[1], p[2], p[3], p[4]] == p;
    TrimGpt();
    TrimOpenThai();
    TrimLlama();
  }

  lemma TrimsFive(a: string, b: string, c: string, d: string, e: string)
    ensures Trims([a, b, c, d, e]) == [TrimSpace(a), TrimSpace(b), TrimSpace(c), TrimSpace(d), TrimSpace(e)]
  {
  }

  lemma TrimGpt()
    ensures TrimSpace(" gpt-oss:20b ") == "gpt-oss:20b"
  {
    assert " " + "gpt-oss:20b" + " " == " gpt-oss:20b ";
    TrimSpaceOfPadded(" ", "gpt-oss:20b", " ");
  }

  lemma TrimOpenThai()
    ensures TrimSpace("openthaigpt1.5-7b-instruct") == "openthaigpt1.5-7b-instruct"
  {
    TrimSpaceFixesTrimmed("openthaigpt1.5-7b-instruct");
  }

  lemma TrimLlama()
    ensures TrimSpace("llama3 ") == "llama3"
  {
    assert "" + "llama3" + " " == "llama3 ";
    TrimSpaceOfPadded("", "llama3", " ");
  }

  lemma ExampleNames()
    ensures NonEmpty(["gpt-oss:20b", "openthaigpt1.5-7b-instruct", "gpt-oss:20b", "", "llama3"])
         == ["gpt-oss:20b", "openthaigpt1.5-7b-instruct", "gpt-oss:20b", "llama3"]
  {
    var a, b, c := "gpt-oss:20b", "openthaigpt1.5-7b-instruct", "llama3";
    NonEmptySnoc([], a);
    assert [] + [a] == [a];
    NonEmptySnoc([a], b);
    assert [a] + [b] == [a, b];
    NonEmptySnoc([a, b], a);
    assert [a, b] + [a] == [a, b, a];
    NonEmptySnoc([a, b, a], "");
    assert [a, b, a] + [""] == [a, b, a, ""];
    NonEmptySnoc([a, b, a, ""], c);
    assert [a, b, a, ""] + [c] == [a, b, a, "", c];
    assert [a, b, a] + [c] == [a, b, a, c];
  }

  lemma ExampleDedup()
    ensures Dedup(["gpt-oss:20b", "openthaigpt1.5-7b-instruct", "gpt-oss:20b", "llama3"])
         == ["gpt-oss:20b", "openthaigpt1.5-7b-instruct", "llama3"]
  {
    var a, b, c := "gpt-oss:20b", "openthaigpt1.5-7b-instruct", "llama3";
    assert |a| == 11 && |b| == 26 && |c| == 6;
    DedupRepeat(a, b, c);
  }

  lemma DedupPair(a: string, b: string)
    requires a != b
    ensures Dedup([a, b]) == [a, b]
  {
    assert Dedup([a]) == [a] by {
      assert [a][..0] == [];
    }
    assert [a, b][..1] == [a];
  }

  lemma DedupAgain(a: string, b: string)
    requires a != b
    ensures Dedup([a, b, a]) == [a, b]
  {
    DedupPair(a, b);
    assert [a, b, a][..2] == [a, b];
  }

  /** The shape of the example: the first name again between two new ones. */
  lemma DedupRepeat(a: string, b: string, c: string)
    requires a != b && c != a && c != b
    ensures Dedup([a, b, a, c]) == [a, b, c]
  {
    DedupAgain(a, b);
    assert [a, b, a, c][..3] == [a, b, a];
  }

  /** parseModelList(" gpt-oss:20b ,openthaigpt1.5-7b-instruct, gpt-oss:20b ,,llama3 ")
      is ["gpt-oss:20b", "openthaigpt1.5-7b-instruct", "llama3"]. */
  lemma ModelListExample()
    ensures ModelList(ExampleValue) == ["gpt-oss:20b", "openthaigpt1.5-7b-instruct", "llama3"]
  {
    ExampleSplit();
    ExampleTrims();
    ExampleNames();
    ExampleDedup();
  }

  lemma NonEmptySnoc(xs: seq<string>, x: string)
    ensures NonEmpty(xs + [x]) == NonEmpty(xs) + (if x == [] then [] else [x])
  {
    assert (xs + [x])[..|xs|] == xs;
  }
}
