/**
 * The wire contract between botpower's request builder and its response
 * parser: what the builder emits is exactly what the parser's pattern reads
 * back, outlet by outlet and in order.
 */
module RoundTrip {
  import opened Wrappers
  import opened Request
  import opened Response
  import opened Driver

  /** Pairs joined by `+` are read back by the pattern one by one, none lost, none added. */
  lemma {:induction false} MatchesOfJoin(pairs: seq<string>)
    requires forall k :: 0 <= k < |pairs| ==> IsStatusPair(pairs[k])
    ensures Matches(Join(pairs)) == pairs
  {
    if |pairs| == 1 {
      MatchesAfterPair(pairs[0], "");
      assert pairs[0] + "" == pairs[0];
    } else if |pairs| > 1 {
      var rest := Join(pairs[1..]);
      assert Join(pairs) == pairs[0] + ("+" + rest);
      MatchesAfterPair(pairs[0], "+" + rest);
      assert "+" + rest == ['+'] + rest;
      MatchesAfterOther('+', rest);
      MatchesOfJoin(pairs[1..]);
    }
  }

  /** For a CLI outlet token and on/off, every emitted pair has the shape the parser looks for. */
  lemma EmittedPairsMatch(outlet: string, action: string)
    requires outlet in ValidOutlets && action in {"on", "off"}
    ensures var pairs := EmittedPairs(outlet, PowerState[action]);
      forall k :: 0 <= k < |pairs| ==>
        IsStatusPair(pairs[k]) && pairs[k][2] == Targets(outlet)[k][0] && pairs[k][4] == PowerState[action][0]
  {
    var s := PowerState[action];
    assert s == "0" || s == "1";
    var pairs := EmittedPairs(outlet, s);
    forall k | 0 <= k < |pairs|
      ensures IsStatusPair(pairs[k]) && pairs[k][2] == Targets(outlet)[k][0] && pairs[k][4] == s[0]
    {
      var n := Targets(outlet)[k];
      assert n in ["1", "2", "3", "4"];
      assert pairs[k] == ['p', '6', n[0], '=', s[0]];
    }
  }

  /** The report a reader expects for outlets switched to a power action: one line per outlet, in order. */
  function ExpectedRows(targets: seq<string>, power: string): string
  {
    if targets == [] then ""
    else "outlet: " + targets[0] + " power: " + power + "\n" + ExpectedRows(targets[1..], power)
  }

  /** The report of pairs built from one-digit outlets and one state names those outlets, in order. */
  lemma {:induction false} ReportOfPairs(pairs: seq<string>, targets: seq<string>, action: string)
    requires action in {"on", "off"} && |pairs| == |targets|
    requires forall k :: 0 <= k < |pairs| ==>
      IsStatusPair(pairs[k]) && targets[k] == [pairs[k][2]] && pairs[k][4] == PowerState[action][0]
    ensures forall k :: 0 <= k < |pairs| ==> !BadState(pairs[k])
    ensures Report(pairs) == ExpectedRows(targets, action)
  {
    assert PowerState[action] == if action == "on" then "1" else "0";
    if pairs != [] {
      ReportOfPairs(pairs[1..], targets[1..], action);
      assert PowerWord(pairs[0][4]) == action;
    }
  }

  /**
   * parse_response(set_outlet(o, a)) reports exactly the outlets the request
   * switched, in the order it switched them, each with power a: four lines
   * for `all`, one otherwise.
   */
  lemma BuilderParserRoundTrip(outlet: string, action: string)
    requires outlet in ValidOutlets && action in {"on", "off"}
    ensures OutletParams(outlet, action).Ok?
    ensures var q := OutletParams(outlet, action).value;
      && Matches(q) == EmittedPairs(outlet, PowerState[action])
      && ParseStatus(q) == Ok(Header + ExpectedRows(Targets(outlet), action))
  {
    var pairs := EmittedPairs(outlet, PowerState[action]);
    EmittedPairsMatch(outlet, action);
    MatchesOfJoin(pairs);
    forall k | 0 <= k < |pairs|
      ensures Targets(outlet)[k] == [pairs[k][2]]
    {
      assert Targets(outlet)[k] in ["1", "2", "3", "4"];
    }
    ReportOfPairs(pairs, Targets(outlet), action);
    ParseStatusReport(OutletParams(outlet, action).value);
  }

  /** The command prefix of a write holds no match, so the scan reads only what follows it. */
  lemma SetpowerPrefixIsInert(q: string)
    requires q != []
    ensures Matches("cmd=setpower+" + q) == Matches(q)
  {
    var prefix := "cmd=setpower+";
    FindAllShift(prefix, q, 0);
    var u := prefix + q;
    forall j | 0 <= j < |prefix|
      ensures !MatchesAt(u, j)
    {
      assert u[j] == prefix[j] && u[j + 1] == (prefix + [q[0]])[j + 1];
    }
    SkipNoMatch(u, 0, |prefix|);
  }

  /**
   * The query of a write carries the emitted pairs and nothing else the
   * parser's pattern would read: `cmd=setpower+` holds no match.
   */
  lemma QueryCarriesPairs(outlet: string, action: string)
    requires outlet in ValidOutlets && action in {"on", "off"}
    ensures Query(outlet, action).Ok?
    ensures Matches(Query(outlet, action).value) == EmittedPairs(outlet, PowerState[action])
  {
    QueryCases(outlet, action);
    BuilderParserRoundTrip(outlet, action);
    SetpowerPrefixIsInert(OutletParams(outlet, action).value);
  }
}
