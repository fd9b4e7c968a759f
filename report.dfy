/**
 * The action's output: the `vulns` output line written for the merged findings, and the
 * exit status, which is 0 whether or not there are findings.
 */
module Report {
  import opened Strings
  import opened Aggregate

  /** The prefix of the workflow command that sets the `vulns` output. */
  const SET_OUTPUT: string := "::set-output name=vulns::"

  /** The display strings of `vulns`, in order. */
  function Displays(vulns: seq<VulnReport>): (r: seq<string>)
    ensures |r| == |vulns| && forall i :: 0 <= i < |vulns| ==> r[i] == vulns[i].display
  {
    if vulns == [] then [] else Displays(vulns[..|vulns| - 1]) + [vulns[|vulns| - 1].display]
  }

  /** What the loop over `totalVulns[1:]` appends: each display followed by a comma. */
  function CommaTerminated(vulns: seq<VulnReport>): string
  {
    if vulns == [] then "" else CommaTerminated(vulns[..|vulns| - 1]) + vulns[|vulns| - 1].display + ","
  }

  /** `outString` for a non-empty list: the first display, the comma-terminated rest, one trailing comma trimmed. */
  function OutString(totalVulns: seq<VulnReport>): string
    requires |totalVulns| > 0
  {
    TrimSuffix(totalVulns[0].display + CommaTerminated(totalVulns[1..]), ",")
  }

  /** The text printed to standard output for `totalVulns`. */
  function OutputLine(totalVulns: seq<VulnReport>): string
  {
    if |totalVulns| > 0 then SET_OUTPUT + OutString(totalVulns) + "\n" else SET_OUTPUT + " "
  }

  /** The end of `main`: build `outString` with `+=`, trim it, and choose the exit status. */
  method SetOutput(totalVulns: seq<VulnReport>) returns (line: string, exitCode: int)
    ensures line == OutputLine(totalVulns)
    ensures |totalVulns| == 0 ==> line == SET_OUTPUT + " "
    ensures exitCode == 0
  {
    if |totalVulns| > 0 {
      var outString := totalVulns[0].display;
      for i := 1 to |totalVulns|
        invariant outString == totalVulns[0].display + CommaTerminated(totalVulns[1..i])
      {
        assert totalVulns[1..i + 1][..i - 1] == totalVulns[1..i];
        assert totalVulns[1..i + 1] == totalVulns[1..i] + [totalVulns[i]];
        outString := outString + totalVulns[i].display + ",";
      }
      assert totalVulns[1..|totalVulns|] == totalVulns[1..];
      outString := TrimSuffix(outString, ",");
      line := SET_OUTPUT + outString + "\n";
    } else {
      line := SET_OUTPUT + " ";
    }
    exitCode := 0;
  }

  /** The comma-terminated displays are the displays joined by commas, plus one comma. */
  lemma {:induction false} CommaTerminatedIsJoin(vulns: seq<VulnReport>)
    requires |vulns| >= 1
    ensures CommaTerminated(vulns) == Join(Displays(vulns), ',') + ","
  {
    var init := vulns[..|vulns| - 1];
    var last := vulns[|vulns| - 1].display;
    assert Displays(vulns) == Displays(init) + [last];
    JoinSnoc(Displays(init), last, ',');
    if |vulns| > 1 {
      CommaTerminatedIsJoin(init);
    }
  }

  /** Trimming a comma the string ends with gives the string before it. */
  lemma TrimOneComma(s: string)
    ensures TrimSuffix(s + ",", ",") == s
  {
    var t := s + ",";
    assert t[|t| - 1..] == ",";
    var r := TrimSuffix(t, ",");
    assert r == (r + ",")[..|r|];
  }

  /**
   * With two or more findings, the first display is followed directly by the second, and the
   * rest are joined by commas: no comma ever separates the first two.
   */
  lemma OutStringFusesFirstTwo(totalVulns: seq<VulnReport>)
    requires |totalVulns| >= 2
    ensures OutString(totalVulns) == totalVulns[0].display + Join(Displays(totalVulns[1..]), ',')
  {
    CommaTerminatedIsJoin(totalVulns[1..]);
    TrimOneComma(totalVulns[0].display + Join(Displays(totalVulns[1..]), ','));
  }

  /** A single finding is printed without one trailing comma of its own, if it has one. */
  lemma OutStringSingle(totalVulns: seq<VulnReport>)
    requires |totalVulns| == 1
    ensures OutString(totalVulns) == TrimSuffix(totalVulns[0].display, ",")
  {
    assert totalVulns[1..] == [];
  }

  /** Joining a head onto a non-empty rest puts one separator after the head. */
  lemma JoinCons(head: string, rest: seq<string>, sep: char)
    requires |rest| >= 1
    ensures Join([head] + rest, sep) == head + [sep] + Join(rest, sep)
  {
    assert ([head] + rest)[1..] == rest;
  }

  /**
   * Read back by splitting on commas, the output holds one entry fewer than there are
   * findings: the first two displays come back fused, the rest one per entry.
   */
  lemma OutStringReadBack(totalVulns: seq<VulnReport>)
    requires |totalVulns| >= 2
    requires forall i :: 0 <= i < |totalVulns| ==> ',' !in totalVulns[i].display
    ensures Split(OutString(totalVulns), ',')
      == [totalVulns[0].display + totalVulns[1].display] + Displays(totalVulns[2..])
  {
    var d0 := totalVulns[0].display;
    var d1 := totalVulns[1].display;
    var rest := Displays(totalVulns[2..]);
    OutStringFusesFirstTwo(totalVulns);
    assert Displays(totalVulns[1..]) == [d1] + rest;
    var parts := [d0 + d1] + rest;
    if rest == [] {
      assert Join(Displays(totalVulns[1..]), ',') == d1;
      assert Join(parts, ',') == d0 + d1;
    } else {
      JoinCons(d1, rest, ',');
      JoinCons(d0 + d1, rest, ',');
    }
    assert OutString(totalVulns) == Join(parts, ',');
    forall i | 0 <= i < |parts| ensures ',' !in parts[i] {
      if i > 0 {
        assert parts[i] == totalVulns[i + 1].display;
      }
    }
    SplitJoin(parts, ',');
  }

  /** Three findings displayed as a, b and c are printed as `ab,c`. */
  lemma ThreeFindingsExample(a: VulnReport, b: VulnReport, c: VulnReport)
    requires a.display == "a" && b.display == "b" && c.display == "c"
    ensures OutputLine([a, b, c]) == SET_OUTPUT + "ab,c" + "\n"
  {
    var tv := [a, b, c];
    OutStringFusesFirstTwo(tv);
    assert Displays(tv[1..]) == ["b", "c"];
    assert Join(["b", "c"], ',') == "b,c";
  }
}
