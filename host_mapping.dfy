/**
 * Host-mapping override rules (`WhiteHatIDDHostMapping`), the entries the
 * settings document stores (`HostMapping`), and the reconciliation that
 * turns the user's ordered rule list into the document's `hosts` list.
 *
 * Reconciliation walks the rules in order, skips any rule whose from-host
 * or to-host is blank, and `put`s the rest into a `LinkedHashMap` keyed by
 * from-host: a later rule for the same from-host replaces the value but
 * keeps the position where that from-host was first inserted. The map's
 * values, in iteration order, become `hosts`.
 */
module HostMappings {
  import opened Common

  /**
   * `Character.isWhitespace`: the space, line and paragraph separators
   * except the non-breaking ones (U+00A0, U+2007, U+202F), plus U+0009 to
   * U+000D and U+001C to U+001F.
   */
  predicate IsWhitespace(c: char) {
    c == ' ' || '\t' <= c <= '\r' || '\U{1C}' <= c <= '\U{1F}'
    || c == '\U{1680}' || '\U{2000}' <= c <= '\U{2006}' || '\U{2008}' <= c <= '\U{200A}'
    || c == '\U{2028}' || c == '\U{2029}' || c == '\U{205F}' || c == '\U{3000}'
  }

  /** `StringUtils.isBlank`: null, empty, or whitespace only. */
  predicate IsBlank(s: Option<string>) {
    s.None? || forall i :: 0 <= i < |s.value| ==> IsWhitespace(s.value[i])
  }

  /**
   * `WhiteHatIDDHostMapping`: an immutable rule. The constructor stores its
   * three arguments as given, nulls and blanks included, and there are no
   * setters; the getters are the datatype's destructors.
   */
  datatype HostMappingRule = HostMappingRule(
    enableHostMapping: Option<bool>,
    fromHost: Option<string>,
    toHost: Option<string>)

  /**
   * The rules of a Java list that may hold `null` elements, in order, or
   * `None` when one of them is `null`: iterating such a list and calling a
   * getter fails with a NullPointerException on the first `null`.
   */
  function PresentRules(rules: seq<Option<HostMappingRule>>): (r: Option<seq<HostMappingRule>>)
    ensures r.Some? <==> forall i :: 0 <= i < |rules| ==> rules[i].Some?
    ensures r.Some? ==> |r.value| == |rules| && forall i :: 0 <= i < |rules| ==> r.value[i] == rules[i].value
  {
    if rules == [] then Some([])
    else
      var prev := PresentRules(rules[..|rules| - 1]);
      var last := rules[|rules| - 1];
      if prev.None? || last.None? then None else Some(prev.value + [last.value])
  }

  /** `HostMapping`: one entry of the settings document's `hosts` list. */
  datatype HostMapping = HostMapping(enable: Option<bool>, from: string, to: string)

  /** A rule that reconciliation keeps: neither host is blank. */
  predicate Eligible(rule: HostMappingRule) {
    !IsBlank(rule.fromHost) && !IsBlank(rule.toHost)
  }

  /**
   * The entry built from a kept rule (`setEnable`, `setFrom`, `setTo`): it
   * carries what the rule's three getters return, so neither host is blank.
   */
  function ToEntry(rule: HostMappingRule): (r: HostMapping)
    requires Eligible(rule)
    ensures r.enable == rule.enableHostMapping && Some(r.from) == rule.fromHost && Some(r.to) == rule.toHost
    ensures !IsBlank(Some(r.from)) && !IsBlank(Some(r.to))
  {
    HostMapping(rule.enableHostMapping, rule.fromHost.value, rule.toHost.value)
  }

  /** Some entry of `m` is keyed by `f`. */
  predicate HasKey(m: seq<HostMapping>, f: string) {
    exists k :: 0 <= k < |m| && m[k].from == f
  }

  /** At most one entry per from-host: the key set of a map. */
  predicate KeysUnique(m: seq<HostMapping>) {
    forall i, j :: 0 <= i < j < |m| ==> m[i].from != m[j].from
  }

  /**
   * `LinkedHashMap.put(h.from, h)` on the map's values in iteration order:
   * an existing key keeps its slot and takes the new value, a new key is
   * appended.
   */
  function Put(m: seq<HostMapping>, h: HostMapping): (r: seq<HostMapping>)
    requires KeysUnique(m)
    ensures KeysUnique(r)
    ensures HasKey(m, h.from) ==>
      |r| == |m| && forall k :: 0 <= k < |m| ==> r[k] == (if m[k].from == h.from then h else m[k])
    ensures !HasKey(m, h.from) ==> r == m + [h]
  {
    if m == [] then [h]
    else if m[0].from == h.from then [h] + m[1..]
    else [m[0]] + Put(m[1..], h)
  }

  /** The reconciled `hosts` list for an ordered list of rules. */
  function Reconciled(rules: seq<HostMappingRule>): (r: seq<HostMapping>)
    ensures KeysUnique(r)
  {
    if rules == [] then []
    else
      var prev := Reconciled(rules[..|rules| - 1]);
      var rule := rules[|rules| - 1];
      if Eligible(rule) then Put(prev, ToEntry(rule)) else prev
  }

  /** Rule `j` is kept and is keyed by `f`. */
  predicate RuleFor(rules: seq<HostMappingRule>, j: int, f: string) {
    0 <= j < |rules| && Eligible(rules[j]) && rules[j].fromHost == Some(f)
  }

  /** Rule `j` is the last kept rule keyed by `f`. */
  predicate IsLastRuleFor(rules: seq<HostMappingRule>, j: int, f: string) {
    RuleFor(rules, j, f) && forall j' :: j < j' < |rules| ==> !RuleFor(rules, j', f)
  }

  /** Every reconciled entry is built from a kept rule, so neither of its hosts is blank. */
  lemma {:induction false} ReconciledEntriesFromKeptRules(rules: seq<HostMappingRule>)
    ensures forall k :: 0 <= k < |Reconciled(rules)| ==>
      exists j :: 0 <= j < |rules| && Eligible(rules[j]) && Reconciled(rules)[k] == ToEntry(rules[j])
    ensures forall k :: 0 <= k < |Reconciled(rules)| ==>
      !IsBlank(Some(Reconciled(rules)[k].from)) && !IsBlank(Some(Reconciled(rules)[k].to))
  {
    var r := Reconciled(rules);
    if rules != [] {
      var n := |rules| - 1;
      var pre := rules[..n];
      ReconciledEntriesFromKeptRules(pre);
      var prev := Reconciled(pre);
      forall k | 0 <= k < |r|
        ensures exists j :: 0 <= j < |rules| && Eligible(rules[j]) && r[k] == ToEntry(rules[j])
      {
        if Eligible(rules[n]) && r[k] == ToEntry(rules[n]) {
        } else {
          assert k < |prev| && r[k] == prev[k];
          var j :| 0 <= j < |pre| && Eligible(pre[j]) && prev[k] == ToEntry(pre[j]);
          assert rules[j] == pre[j];
        }
      }
    }
    forall k | 0 <= k < |r|
      ensures !IsBlank(Some(r[k].from)) && !IsBlank(Some(r[k].to))
    {
      var j :| 0 <= j < |rules| && Eligible(rules[j]) && r[k] == ToEntry(rules[j]);
    }
  }

  /** The reconciled keys are exactly the from-hosts of the kept rules. */
  lemma {:induction false} ReconciledKeys(rules: seq<HostMappingRule>)
    ensures forall f :: HasKey(Reconciled(rules), f) <==> exists j :: RuleFor(rules, j, f)
  {
    if rules != [] {
      var n := |rules| - 1;
      var pre := rules[..n];
      ReconciledKeys(pre);
      var r, prev := Reconciled(rules), Reconciled(pre);
      forall f
        ensures HasKey(r, f) <==> exists j :: RuleFor(rules, j, f)
      {
        assert forall j :: 0 <= j < n ==> (RuleFor(rules, j, f) <==> RuleFor(pre, j, f));
        if Eligible(rules[n]) && rules[n].fromHost == Some(f) {
          assert RuleFor(rules, n, f);
          assert HasKey(r, f) by {
            if HasKey(prev, f) {
              var k :| 0 <= k < |prev| && prev[k].from == f;
              assert r[k].from == f;
            } else {
              assert r[|prev|].from == f;
            }
          }
        } else {
          assert !RuleFor(rules, n, f);
          if HasKey(r, f) {
            var k :| 0 <= k < |r| && r[k].from == f;
            assert k < |prev| && prev[k].from == f;
          }
          if HasKey(prev, f) {
            var k :| 0 <= k < |prev| && prev[k].from == f;
            assert r[k].from == f;
          }
        }
      }
    }
  }

  /** A reconciled entry carries the values of the LAST kept rule for its from-host. */
  lemma {:induction false} ReconciledLastWriteWins(rules: seq<HostMappingRule>)
    ensures forall k, j :: 0 <= k < |Reconciled(rules)| && IsLastRuleFor(rules, j, Reconciled(rules)[k].from) ==>
      Reconciled(rules)[k] == ToEntry(rules[j])
  {
    if rules != [] {
      var n := |rules| - 1;
      var pre := rules[..n];
      ReconciledLastWriteWins(pre);
      var r, prev := Reconciled(rules), Reconciled(pre);
      forall k, j | 0 <= k < |r| && IsLastRuleFor(rules, j, r[k].from)
        ensures r[k] == ToEntry(rules[j])
      {
        var f := r[k].from;
        if Eligible(rules[n]) && rules[n].fromHost == Some(f) {
          assert RuleFor(rules, n, f);
          assert j == n;
        } else {
          assert j < n by { assert !RuleFor(rules, n, f); }
          assert rules[j] == pre[j];
          assert k < |prev| && r[k] == prev[k];
          forall j' | j < j' < |pre|
            ensures !RuleFor(pre, j', f)
          {
            assert pre[j'] == rules[j'];
            assert !RuleFor(rules, j', f);
          }
          assert IsLastRuleFor(pre, j, f);
        }
      }
    }
  }

  /**
   * The index of the first kept rule keyed by `f`, or `|rules|` when no
   * kept rule is.
   */
  function FirstRuleFor(rules: seq<HostMappingRule>, f: string): (j: nat)
    ensures j <= |rules|
    ensures j < |rules| ==> RuleFor(rules, j, f)
    ensures forall i :: 0 <= i < j ==> !RuleFor(rules, i, f)
  {
    if rules == [] then 0
    else
      var n := |rules| - 1;
      var p := FirstRuleFor(rules[..n], f);
      assert forall i :: 0 <= i < n ==> (RuleFor(rules[..n], i, f) <==> RuleFor(rules, i, f));
      if p < n then p
      else if RuleFor(rules, n, f) then n
      else |rules|
  }

  /**
   * Entries sit in the order in which their from-hosts first occur among the
   * kept rules.
   */
  lemma {:induction false} ReconciledFirstPosition(rules: seq<HostMappingRule>)
    ensures forall k1, k2 :: 0 <= k1 < k2 < |Reconciled(rules)| ==>
      FirstRuleFor(rules, Reconciled(rules)[k1].from) < FirstRuleFor(rules, Reconciled(rules)[k2].from)
  {
    if rules != [] {
      var n := |rules| - 1;
      var pre := rules[..n];
      ReconciledFirstPosition(pre);
      ReconciledKeys(pre);
      var r, prev := Reconciled(rules), Reconciled(pre);
      forall k | 0 <= k < |prev|
        ensures FirstRuleFor(rules, prev[k].from) == FirstRuleFor(pre, prev[k].from) < n
      {
        assert HasKey(prev, prev[k].from);
      }
      forall k1, k2 | 0 <= k1 < k2 < |r|
        ensures FirstRuleFor(rules, r[k1].from) < FirstRuleFor(rules, r[k2].from)
      {
        assert k1 < |prev| && r[k1].from == prev[k1].from;
        if k2 < |prev| {
          assert r[k2].from == prev[k2].from;
        } else {
          assert Eligible(rules[n]) && r[k2] == ToEntry(rules[n]) && !HasKey(prev, r[k2].from);
          assert !exists j :: RuleFor(pre, j, r[k2].from);
          assert FirstRuleFor(pre, r[k2].from) == n;
          assert RuleFor(rules, n, r[k2].from);
        }
      }
    }
  }

  /** A rule with a blank host has no effect: removing it leaves the result unchanged. */
  lemma {:induction false} ReconciledIgnoresBlankRule(rules: seq<HostMappingRule>, j: nat)
    requires j < |rules| && !Eligible(rules[j])
    ensures Reconciled(rules) == Reconciled(rules[..j] + rules[j + 1..])
  {
    var n := |rules| - 1;
    var pre := rules[..n];
    if j == n {
      assert rules[..j] + rules[j + 1..] == pre;
    } else {
      ReconciledIgnoresBlankRule(pre, j);
      var rest := rules[..j] + rules[j + 1..];
      assert rest == (pre[..j] + pre[j + 1..]) + [rules[n]];
      assert rest[..|rest| - 1] == pre[..j] + pre[j + 1..];
      assert rest[|rest| - 1] == rules[n];
    }
  }

  /**
   * Two rules for the same from-host: one entry survives, with the second
   * rule's values in the first rule's slot.
   */
  lemma DuplicateFromHostKeepsLastValue()
    ensures Reconciled([HostMappingRule(Some(true), Some("a"), Some("b")),
                        HostMappingRule(Some(false), Some("a"), Some("c"))])
         == [HostMapping(Some(false), "a", "c")]
  {
    var r1 := HostMappingRule(Some(true), Some("a"), Some("b"));
    var r2 := HostMappingRule(Some(false), Some("a"), Some("c"));
    assert !IsWhitespace("a"[0]) && !IsWhitespace("b"[0]) && !IsWhitespace("c"[0]);
    assert Eligible(r1) && Eligible(r2);
    assert [r1, r2][..1] == [r1];
    assert Reconciled([r1]) == [ToEntry(r1)] by { assert [r1][..0] == []; }
  }
}
