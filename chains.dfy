/**
 * The validation-chain semantics of express-validator that the rule lists rely on.
 *
 * A chain for one body field runs its sanitizers and validators in order, with no
 * early exit: every failing validator adds one error, carrying that validator's
 * message (`withMessage`) or, for a custom validator that throws, the thrown message.
 * Validators read the field as text, an absent field reading as "". A sanitizer
 * such as `trim()` reads the field the same way and writes its result back into the
 * request body, so after it the field is present even when it was not submitted.
 */
module Chains {
  import opened Text
  import opened Js

  /** The outcome of running some chains: the sanitized body and the errors collected,
      in the order the validators ran. */
  datatype Validated = Validated(body: map<string, string>, errors: seq<FieldError>)

  /** The text a validator of the chain for `key` reads. */
  function FieldText(body: map<string, string>, key: string): (r: string)
    ensures key in body ==> r == body[key]
    ensures key !in body ==> r == ""
  {
    if key in body then body[key] else ""
  }

  /** The body after the chain for `key` has run `trim()`: a submitted field holds its
      trimmed text and an absent one "" (the sanitizer reads an absent value as "" and
      writes back what it computed); nothing else changes. */
  function TrimmedBody(body: map<string, string>, key: string): (r: map<string, string>)
    ensures forall k :: k in r <==> k in body || k == key
    ensures key in body ==> r[key] == Trim(body[key])
    ensures key !in body ==> r[key] == ""
    ensures forall k :: k in body && k != key ==> r[k] == body[k]
  {
    if key in body then
      var t := Trim(body[key]);
      body[key := t]
    else body[key := ""]
  }

  /** `trim()` applied by the chains for each of `keys`, in order: every one of them is in
      the body afterwards, holding its trimmed text or "" when it was not submitted; the
      other fields are left as they are. */
  function TrimmedFields(body: map<string, string>, keys: seq<string>): (r: map<string, string>)
    ensures forall k :: k in r <==> k in body || k in keys
    ensures forall k :: k in body && k in keys ==> r[k] == Trim(body[k])
    ensures forall k :: k !in body && k in keys ==> r[k] == ""
    ensures forall k :: k in body && k !in keys ==> r[k] == body[k]
    decreases |keys|
  {
    if keys == [] then body
    else
      var r := TrimmedFields(TrimmedBody(body, keys[0]), keys[1..]);
      assert forall k :: k in keys && k != keys[0] ==> k in keys[1..];
      forall k | k == keys[0] && k in keys[1..]
        ensures r[k] == if k in body then Trim(body[k]) else ""
      {
        if k in body {
          TrimIdempotent(body[k]);
        } else {
          assert Trim("") == "";
        }
      }
      r
  }

  /** The validators that follow `trim()` read the trimmed text, "" for an absent field. */
  lemma TrimmedFieldText(body: map<string, string>, keys: seq<string>, key: string)
    requires key in keys
    ensures FieldText(TrimmedFields(body, keys), key) == Trim(FieldText(body, key))
  {
    if key !in body {
      assert Trim("") == "";
    }
  }

  /** The error one validator adds: none when it passes. */
  function Check(passes: bool, path: string, message: string): (r: seq<FieldError>)
    ensures passes <==> r == []
    ensures FieldError(path, message) in r <==> !passes
    ensures forall e :: e in r ==> e == FieldError(path, message)
  {
    if passes then [] else [FieldError(path, message)]
  }

  /** One validator of a chain, as run on one request: the field it reads, whether it
      passed, and the message it reports when it fails. */
  datatype Rule = Rule(path: string, passes: bool, message: string)

  /** Running validators in order: each failing one adds its error. */
  function Run(rules: seq<Rule>): (r: seq<FieldError>)
    ensures |r| <= |rules|
  {
    if rules == [] then [] else Check(rules[0].passes, rules[0].path, rules[0].message) + Run(rules[1..])
  }

  /** An error is reported exactly when some validator for that field, with that message,
      failed. */
  lemma {:induction false} RunReports(rules: seq<Rule>, path: string, message: string)
    ensures FieldError(path, message) in Run(rules) <==>
            exists i :: 0 <= i < |rules| && rules[i] == Rule(path, false, message)
  {
    if rules != [] {
      RunReports(rules[1..], path, message);
      if FieldError(path, message) in Run(rules[1..]) {
        var i :| 1 <= i + 1 < |rules| && rules[1..][i] == Rule(path, false, message);
        assert rules[i + 1] == Rule(path, false, message);
      }
      forall i | 0 < i < |rules| && rules[i] == Rule(path, false, message)
        ensures FieldError(path, message) in Run(rules[1..])
      {
        assert rules[1..][i - 1] == rules[i];
      }
    }
  }

  /** No error is reported exactly when every validator passed. */
  lemma {:induction false} RunEmpty(rules: seq<Rule>)
    ensures Run(rules) == [] <==> forall i :: 0 <= i < |rules| ==> rules[i].passes
  {
    if rules != [] {
      RunEmpty(rules[1..]);
      assert forall i :: 0 < i < |rules| ==> rules[i] == rules[1..][i - 1];
    }
  }

  /** The validators of a rule list whose fields and messages are fixed (`slots`), with the
      outcomes they had on one request. */
  function Table(slots: seq<(string, string)>, outcomes: seq<bool>): (r: seq<Rule>)
    requires |outcomes| == |slots|
    ensures |r| == |slots|
    ensures forall i :: 0 <= i < |slots| ==> r[i] == Rule(slots[i].0, outcomes[i], slots[i].1)
  {
    if slots == [] then [] else [Rule(slots[0].0, outcomes[0], slots[0].1)] + Table(slots[1..], outcomes[1..])
  }

  predicate Distinct<T(==)>(s: seq<T>)
  {
    forall i, j :: 0 <= i < j < |s| ==> s[i] != s[j]
  }

  /** In a table whose slots are all different, a slot's error is reported exactly when
      its validator failed. */
  lemma TableReports(slots: seq<(string, string)>, outcomes: seq<bool>, k: nat, path: string, message: string)
    requires |outcomes| == |slots| && k < |slots| && Distinct(slots) && slots[k] == (path, message)
    ensures FieldError(path, message) in Run(Table(slots, outcomes)) <==> !outcomes[k]
  {
    RunReports(Table(slots, outcomes), path, message);
    assert forall j :: 0 <= j < |slots| && j != k ==> slots[j] != slots[k];
  }

  /** A table reports nothing exactly when every outcome is a pass. */
  lemma TableEmpty(slots: seq<(string, string)>, outcomes: seq<bool>)
    requires |outcomes| == |slots|
    ensures Run(Table(slots, outcomes)) == [] <==> forall i :: 0 <= i < |outcomes| ==> outcomes[i]
  {
    RunEmpty(Table(slots, outcomes));
  }

  /** Whether a validator for `path` failed with `message`. */
  predicate Reported(v: Validated, path: string, message: string)
  {
    FieldError(path, message) in v.errors
  }

  /** `isLength({ min: n })`, on the validator library's length. */
  predicate LengthAtLeast(s: string, n: nat)
  {
    ValidatorLength(s) >= n
  }
}
