// calculatePipelineHash in internal/runtime/storeforward.go: the version stamp of a pipeline.

module PipelineHash {

  const PREFIX := "Pipeline-functions: "

  // Every name, each after one more space.
  function Spelled(names: seq<string>): string {
    if names == [] then "" else " " + names[0] + Spelled(names[1..])
  }

  function Hash(names: seq<string>): string {
    PREFIX + Spelled(names)
  }

  ghost predicate SpaceFree(names: seq<string>) {
    forall name <- names :: ' ' !in name
  }

  lemma {:induction false} SpelledAppend(front: seq<string>, name: string)
    ensures Spelled(front + [name]) == Spelled(front) + " " + name
  {
    if front == [] {
      assert front + [name] == [name];
      assert Spelled([name]) == " " + name + Spelled([]);
    } else {
      SpelledAppend(front[1..], name);
      assert (front + [name])[1..] == front[1..] + [name];
    }
  }

  // The loop that builds the stamp up in one variable.
  method CalculatePipelineHash(names: seq<string>) returns (hash: string)
    ensures hash == Hash(names)
  {
    hash := "Pipeline-functions: ";
    for i := 0 to |names|
      invariant hash == Hash(names[..i])
    {
      SpelledAppend(names[..i], names[i]);
      assert names[..i + 1] == names[..i] + [names[i]];
      hash := hash + " " + names[i];
    }
    assert names[..|names|] == names;
  }

  // After the first name comes a space or nothing.
  lemma FirstNameEnds(a: seq<string>)
    requires a != []
    ensures var n := |a[0]|;
            && |Spelled(a)| >= n + 1
            && Spelled(a)[1..n + 1] == a[0]
            && Spelled(a)[n + 1..] == Spelled(a[1..])
            && (|Spelled(a)| > n + 1 ==> Spelled(a)[n + 1] == ' ')
  {
    assert a[1..] != [] ==> Spelled(a[1..])[0] == ' ';
  }

  lemma FirstNameFits(a: seq<string>, b: seq<string>)
    requires a != [] && b != [] && SpaceFree(b) && Spelled(a) == Spelled(b)
    ensures |a[0]| >= |b[0]|
  {
    var n := |a[0]|;
    FirstNameEnds(b);
    assert n < |b[0]| ==> Spelled(b)[1..|b[0]| + 1][n] == b[0][n] && b[0][n] in b[0];
    FirstNameEnds(a);
  }

  lemma {:induction false} SpelledInjective(a: seq<string>, b: seq<string>)
    requires SpaceFree(a) && SpaceFree(b) && Spelled(a) == Spelled(b)
    ensures a == b
  {
    if a == [] || b == [] {
      assert |Spelled([])| == 0;
    } else {
      FirstNameFits(a, b);
      FirstNameFits(b, a);
      FirstNameEnds(a);
      FirstNameEnds(b);
      SpelledInjective(a[1..], b[1..]);
      assert a == [a[0]] + a[1..] && b == [b[0]] + b[1..];
    }
  }

  // Over space-free names, equal stamps mean the same length and the same name at every position.
  lemma HashIsInjective(a: seq<string>, b: seq<string>)
    requires SpaceFree(a) && SpaceFree(b)
    ensures Hash(a) == Hash(b) <==> a == b
  {
    if Hash(a) == Hash(b) {
      assert Hash(a)[|PREFIX|..] == Spelled(a) && Hash(b)[|PREFIX|..] == Spelled(b);
      SpelledInjective(a, b);
    }
  }

  // The text of one stamp.
  lemma HashOfTwo(f: string, g: string)
    ensures Hash([f, g]) == "Pipeline-functions:  " + f + " " + g
  {
    assert [f, g][1..] == [g] && [g][1..] == [];
    assert Spelled([f, g]) == " " + f + (" " + g + Spelled([]));
    assert PREFIX + (" " + f + (" " + g)) == "Pipeline-functions:  " + f + " " + g;
  }

  // With a space inside a name two different pipelines, even of different lengths, share a stamp.
  lemma SpacesCollide()
    ensures var a, b := ["f g"], ["f", "g"]; a != b && Hash(a) == Hash(b)
  {
    assert Spelled(["f", "g"]) == " " + "f" + Spelled(["g"]);
    assert Spelled(["g"]) == " " + "g" + Spelled([]);
    assert Spelled(["f g"]) == " " + "f g" + Spelled([]);
    assert ["f", "g"][1..] == ["g"];
  }
}
