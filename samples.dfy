/**
 * Worked instances of the builder and parser contracts: the fragments for
 * `all`, a reply listing outlets out of numeric order, an outlet digit outside
 * 1 to 4, an unknown state digit and a reply with no status at all.
 */
module Samples {
  import opened Wrappers
  import opened Request
  import opened Response

  /** Four pairs joined, step by step from the last. */
  lemma JoinOfFour(a: string, b: string, c: string, d: string)
    ensures Join([a, b, c, d]) == a + "+" + (b + "+" + (c + "+" + d))
  {
    assert [a, b, c, d][1..] == [b, c, d];
    assert [b, c, d][1..] == [c, d];
    assert [c, d][1..] == [d];
    assert Join([c, d]) == c + "+" + d;
    assert Join([b, c, d]) == b + "+" + Join([c, d]);
  }

  /** `all` with `on`, written out. */
  lemma AllOnFragment()
    ensures OutletParams("all", "on") == Ok("p61=1+p62=1+p63=1+p64=1")
  {
    AllOutletsParams("on");
    assert Pair("1", "1") == "p61=1";
    assert Pair("2", "1") == "p62=1";
    assert Pair("3", "1") == "p63=1";
    assert Pair("4", "1") == "p64=1";
    JoinOfFour("p61=1", "p62=1", "p63=1", "p64=1");
    assert "p61=1" + "+" + ("p62=1" + "+" + ("p63=1" + "+" + "p64=1")) == "p61=1+p62=1+p63=1+p64=1";
  }

  /** `all` with `off`, written out. */
  lemma AllOffFragment()
    ensures OutletParams("all", "off") == Ok("p61=0+p62=0+p63=0+p64=0")
  {
    AllOutletsParams("off");
    assert Pair("1", "0") == "p61=0";
    assert Pair("2", "0") == "p62=0";
    assert Pair("3", "0") == "p63=0";
    assert Pair("4", "0") == "p64=0";
    JoinOfFour("p61=0", "p62=0", "p63=0", "p64=0");
    assert "p61=0" + "+" + ("p62=0" + "+" + ("p63=0" + "+" + "p64=0")) == "p61=0+p62=0+p63=0+p64=0";
  }

  /** The pattern finds `p63=1` and then `p61=0`, in the order of the text. */
  lemma OutOfOrderMatches()
    ensures Matches("p63=1 p61=0") == ["p63=1", "p61=0"]
  {
    assert "p63=1 p61=0" == "p63=1" + ([' '] + "p61=0");
    assert IsStatusPair("p63=1") && IsStatusPair("p61=0");
    MatchesAfterPair("p63=1", [' '] + "p61=0");
    MatchesAfterOther(' ', "p61=0");
    assert "p61=0" == "p61=0" + "";
    MatchesAfterPair("p61=0", "");
  }

  /** The report body of those two matches: outlet 3 on, then outlet 1 off. */
  lemma OutOfOrderRows()
    ensures IsStatusPair("p63=1") && IsStatusPair("p61=0") && !BadState("p63=1") && !BadState("p61=0")
    ensures Report(["p63=1", "p61=0"]) == "outlet: 3 power: on\n" + "outlet: 1 power: off\n"
  {
    var ms := ["p63=1", "p61=0"];
    assert ms[1..] == ["p61=0"];
    assert Report(ms) == Row('3', "on") + Row('1', "off");
    assert Row('3', "on") == "outlet: 3 power: on\n";
    assert Row('1', "off") == "outlet: 1 power: off\n";
  }

  /** The report lists outlet 3 before outlet 1, as the reply does, not in numeric order. */
  lemma OutOfOrderReport()
    ensures ParseStatus("p63=1 p61=0") == Ok(Header + "outlet: 3 power: on\n" + "outlet: 1 power: off\n")
  {
    OutOfOrderMatches();
    OutOfOrderRows();
    ParseStatusReport("p63=1 p61=0");
    ConcatAssoc(Header, "outlet: 3 power: on\n", "outlet: 1 power: off\n");
  }

  /** The outlet digit is copied as found: `p69=1` reports outlet 9. */
  lemma UncheckedOutletDigit()
    ensures ParseStatus("p69=1") == Ok(Header + "outlet: 9 power: on\n")
  {
    assert "p69=1" == "p69=1" + "";
    assert IsStatusPair("p69=1");
    MatchesAfterPair("p69=1", "");
    assert Report(["p69=1"]) == "outlet: 9 power: on\n" by {
      assert ["p69=1"][1..] == [];
      assert Row('9', "on") == "outlet: 9 power: on\n";
    }
    ParseStatusReport("p69=1");
  }

  /** A state digit other than 0 or 1 raises KeyError with that digit. */
  lemma UnknownStateDigit()
    ensures ParseStatus("p61=7") == Err(KeyError("7"))
  {
  }

  /** A reply without any status pair gives the empty report. */
  lemma NoStatusInReply()
    ensures ParseStatus("") == Ok("")
    ensures ParseStatus("no matches here") == Ok("")
  {
  }
}
