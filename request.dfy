/**
 * The request builder of botpower: `set_outlet(outlet, action)`, which turns
 * an outlet specifier and a power action into the `p6<n>=<0|1>` fragment of
 * the IP9258's `cmd=setpower+...` query string.
 */
module Request {
  import opened Wrappers

  /** The builder's `state` dictionary: power action to the digit the device expects. */
  const PowerState: map<string, string> := map["off" := "0", "on" := "1"]

  /** The four outlets of the unit, in ascending order, as `str(p)` spells them. */
  const Outlets: seq<string> := ["1", "2", "3", "4"]

  /** The outlet tokens the command line admits. */
  const ValidOutlets: set<string> := {"1", "2", "3", "4", "all"}

  /** `str(p)` for a one-digit number. */
  function DigitString(p: nat): (r: string)
    requires p < 10
    ensures |r| == 1 && '0' <= r[0] <= '9'
    ensures 1 <= p <= 4 ==> r == Outlets[p - 1]
  {
    [('0' as int + p) as char]
  }

  /** One `key=value` pair of the query: key `p6<outlet>`, value the state digit. */
  function Pair(outlet: string, state: string): string
  {
    "p6" + outlet + "=" + state
  }

  /** The pieces joined by a literal `+`, with no separator after the last one. */
  function Join(pieces: seq<string>): string
  {
    if |pieces| == 0 then ""
    else if |pieces| == 1 then pieces[0]
    else pieces[0] + "+" + Join(pieces[1..])
  }

  /** Appending a piece to a non-empty list adds one separator and that piece. */
  lemma {:induction false} JoinSnoc(pieces: seq<string>, last: string)
    requires |pieces| >= 1
    ensures Join(pieces + [last]) == Join(pieces) + "+" + last
  {
    if |pieces| == 1 {
      assert (pieces + [last])[1..] == [last];
    } else {
      assert (pieces + [last])[1..] == pieces[1..] + [last];
      JoinSnoc(pieces[1..], last);
    }
  }

  /** The outlets a specifier addresses: all four for `all`, the specifier itself otherwise. */
  function Targets(outlet: string): (r: seq<string>)
    ensures |r| == (if outlet == "all" then 4 else 1)
  {
    if outlet == "all" then Outlets else [outlet]
  }

  /** The pairs the builder emits for each addressed outlet with the given state digit. */
  function EmittedPairs(outlet: string, state: string): (r: seq<string>)
    ensures |r| == |Targets(outlet)|
    ensures forall k :: 0 <= k < |r| ==> r[k] == Pair(Targets(outlet)[k], state)
  {
    var targets := Targets(outlet);
    seq(|targets|, k requires 0 <= k < |targets| => Pair(targets[k], state))
  }

  /**
   * What `set_outlet(outlet, action)` returns: the emitted pairs joined by `+`,
   * or the KeyError that the `state[action]` subscript raises for any action
   * other than `on` and `off`.
   */
  function OutletParams(outlet: string, action: string): Result<string>
  {
    if action in PowerState then Ok(Join(EmittedPairs(outlet, PowerState[action])))
    else Err(KeyError(action))
  }

  /** set_outlet, accumulating the fragment in `qParams` as the source does. */
  method SetOutlet(outlet: string, action: string) returns (r: Result<string>)
    ensures r == OutletParams(outlet, action)
  {
    var qParams := "";
    var state := PowerState;

    if outlet == "all" {
      ghost var pairs := if action in PowerState then EmittedPairs(outlet, PowerState[action]) else [];
      for p := 1 to 5
        invariant p > 1 ==> action in PowerState && |pairs| == 4
        invariant p == 1 ==> qParams == ""
        invariant 1 < p < 5 ==> qParams == Join(pairs[..p - 1]) + "+"
        invariant p == 5 ==> qParams == Join(pairs)
      {
        var key := "p6" + DigitString(p);
        var value := Lookup(state, action);
        if value.Err? {
          return Err(value.failure);
        }
        assert pairs[p - 1] == key + "=" + value.value;
        if p == 1 {
          assert pairs[..1] == [pairs[0]];
        } else {
          assert pairs[..p] == pairs[..p - 1] + [pairs[p - 1]];
          JoinSnoc(pairs[..p - 1], pairs[p - 1]);
        }
        qParams := qParams + (key + "=" + value.value);
        // the device's parser rejects a trailing separator
        if p < 4 {
          qParams := qParams + "+";
        }
        assert p == 4 ==> pairs[..p] == pairs;
      }
    } else {
      var key := "p6" + outlet;
      var value := Lookup(state, action);
      if value.Err? {
        return Err(value.failure);
      }
      qParams := qParams + (key + "=" + value.value);
      assert Pair(Targets(outlet)[0], value.value) == qParams;
    }

    return Ok(qParams);
  }

  /** A single outlet gets one pair, `p6<n>=1` for on and `p6<n>=0` for off, and no separator. */
  lemma SingleOutletParams(outlet: string, action: string)
    requires outlet in Outlets && action in {"on", "off"}
    ensures OutletParams(outlet, action) == Ok("p6" + outlet + "=" + (if action == "on" then "1" else "0"))
    ensures '+' !in OutletParams(outlet, action).value
  {
    assert Targets(outlet) == [outlet];
    assert EmittedPairs(outlet, PowerState[action]) == [Pair(outlet, PowerState[action])];
  }

  /** Pieces free of `+` joined together hold one `+` fewer than there are pieces. */
  lemma {:induction false} JoinSeparatorCount(pieces: seq<string>)
    requires |pieces| >= 1
    requires forall k :: 0 <= k < |pieces| ==> '+' !in pieces[k]
    ensures multiset(Join(pieces))['+'] == |pieces| - 1
  {
    if |pieces| > 1 {
      JoinSeparatorCount(pieces[1..]);
      assert multiset(Join(pieces)) == multiset(pieces[0]) + multiset("+") + multiset(Join(pieces[1..]));
    }
  }

  /** A pair of a one-character outlet and a one-character state is five characters, none of them `+`. */
  lemma PairShape(outlet: string, state: string)
    requires |outlet| == 1 && |state| == 1 && outlet[0] != '+' && state[0] != '+'
    ensures |Pair(outlet, state)| == 5 && '+' !in Pair(outlet, state)
  {
    assert Pair(outlet, state) == ['p', '6', outlet[0], '=', state[0]];
  }

  /** Pieces of one length n joined together are one separator longer per extra piece. */
  lemma {:induction false} JoinLength(pieces: seq<string>, n: nat)
    requires |pieces| >= 1
    requires forall k :: 0 <= k < |pieces| ==> |pieces[k]| == n
    ensures |Join(pieces)| == |pieces| * (n + 1) - 1
  {
    if |pieces| > 1 {
      JoinLength(pieces[1..], n);
    }
  }

  /** The joined string ends with the last piece, not with a separator. */
  lemma {:induction false} JoinEndsWithLast(pieces: seq<string>)
    requires |pieces| >= 1
    ensures var j, last := Join(pieces), pieces[|pieces| - 1];
      |last| <= |j| && j[|j| - |last|..] == last
  {
    if |pieces| > 1 {
      JoinEndsWithLast(pieces[1..]);
    }
  }

  /** `all` gets the pairs of outlets 1 to 4, in ascending order, joined by `+`. */
  lemma AllOutletsParams(action: string)
    requires action in {"on", "off"}
    ensures var s := if action == "on" then "1" else "0";
      OutletParams("all", action) == Ok(Join([Pair("1", s), Pair("2", s), Pair("3", s), Pair("4", s)]))
  {
    var s := PowerState[action];
    assert s == if action == "on" then "1" else "0";
    assert EmittedPairs("all", s) == [Pair("1", s), Pair("2", s), Pair("3", s), Pair("4", s)];
  }

  /** Join of pieces of five characters, none of them `+`: its length, separators and last character. */
  lemma JoinOfPairsLayout(pieces: seq<string>)
    requires |pieces| >= 1
    requires forall k :: 0 <= k < |pieces| ==> |pieces[k]| == 5 && '+' !in pieces[k]
    ensures |Join(pieces)| == 6 * |pieces| - 1
    ensures multiset(Join(pieces))['+'] == |pieces| - 1
    ensures Join(pieces)[|Join(pieces)| - 1] == pieces[|pieces| - 1][4]
  {
    JoinSeparatorCount(pieces);
    JoinLength(pieces, 5);
    JoinEndsWithLast(pieces);
  }

  /**
   * The fragment for a CLI outlet token and a state digit: six characters per
   * addressed outlet less one, one `+` fewer than there are outlets, and the
   * state digit last.
   */
  lemma FragmentLayout(outlet: string, state: string)
    requires outlet in ValidOutlets && (state == "0" || state == "1")
    ensures var q, n := Join(EmittedPairs(outlet, state)), |Targets(outlet)|;
      |q| == 6 * n - 1 && q[|q| - 1] == state[0] && multiset(q)['+'] == n - 1
  {
    var pairs := EmittedPairs(outlet, state);
    forall k | 0 <= k < |pairs|
      ensures |pairs[k]| == 5 && '+' !in pairs[k] && pairs[k][4] == state[0]
    {
      var target := Targets(outlet)[k];
      assert target in ["1", "2", "3", "4"];
      PairShape(target, state);
      assert pairs[k] == ['p', '6', target[0], '=', state[0]];
    }
    JoinOfPairsLayout(pairs);
  }

  /**
   * The fragment for `all` holds exactly three `+` and ends in the state digit,
   * not in a `+`: 23 characters in all.
   */
  lemma AllOutletsLayout(action: string, q: string)
    requires action in {"on", "off"} && OutletParams("all", action) == Ok(q)
    ensures |q| == 23
    ensures q[|q| - 1] == (if action == "on" then '1' else '0')
    ensures multiset(q)['+'] == 3
  {
    if action == "on" {
      FragmentLayout("all", "1");
    } else {
      FragmentLayout("all", "0");
    }
  }

  /** Any action other than `on` and `off` (`display` among them) fails with KeyError(action). */
  lemma UnknownActionFails(outlet: string, action: string)
    ensures OutletParams(outlet, action).Err? <==> action !in {"on", "off"}
    ensures OutletParams(outlet, action).Err? ==> OutletParams(outlet, action).failure == KeyError(action)
  {
  }
}
