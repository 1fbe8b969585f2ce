/** The corporate-email validation rule: when a list of approved domains is
    configured, an email passes only if its domain is on the list. */
module CorporateEmail {
  import opened Common

  /** `ltrim($s, '@')`: every leading '@' removed. */
  function LTrimAt(s: string): (r: string)
    ensures |r| <= |s| && r == s[|s| - |r|..]
    ensures r == [] || r[0] != '@'
    ensures forall i :: 0 <= i < |s| - |r| ==> s[i] == '@'
  {
    if s == [] || s[0] != '@' then s else LTrimAt(s[1..])
  }

  /** One configured domain: lower-cased, leading '@'s stripped, then
      trimmed; a null entry counts as ''. */
  function NormaliseDomain(d: Option<string>): (r: string)
    ensures IsLowerCase(r)
    ensures r == [] || (!IsTrimChar(r[0]) && !IsTrimChar(r[|r| - 1]))
  {
    var lowered := Lower(d.GetOr(""));
    var stripped := LTrimAt(lowered);
    LowerCaseSlice(lowered, |lowered| - |stripped|, |lowered|);
    TrimKeepsLowerCase(stripped);
    Trim(stripped)
  }

  /** `filter()` as intended: the truthy strings, in order. */
  function DropFalsy(s: seq<string>): (r: seq<string>)
    ensures forall x :: x in r <==> x in s && !FalsyString(x)
  {
    if s == [] then []
    else
      var rest := DropFalsy(s[1..]);
      assert forall x :: x in s <==> x == s[0] || x in s[1..];
      if FalsyString(s[0]) then rest else [s[0]] + rest
  }

  /** `map()` of the normalisation over the configured list. */
  function NormaliseEach(configured: seq<Option<string>>): (r: seq<string>)
    ensures |r| == |configured|
    ensures forall i :: 0 <= i < |configured| ==> r[i] == NormaliseDomain(configured[i])
  {
    Map(NormaliseDomain, configured)
  }

  /** The approved-domain list as intended: the map, `filter()` and
      `unique()` pipeline, with blank entries dropped. */
  function ApprovedDomains(configured: seq<Option<string>>): (r: seq<string>)
    ensures Distinct(r)
    ensures forall x :: x in r <==> !FalsyString(x) && exists i :: 0 <= i < |configured| && NormaliseDomain(configured[i]) == x
  {
    Unique(DropFalsy(NormaliseEach(configured)))
  }

  /** Every approved domain is lower-case, trimmed and not empty. */
  lemma ApprovedDomainsAreNormal(configured: seq<Option<string>>)
    ensures forall x :: x in ApprovedDomains(configured) ==>
      && !FalsyString(x) && IsLowerCase(x)
      && (!IsTrimChar(x[0]) && !IsTrimChar(x[|x| - 1]))
  {
    forall x | x in ApprovedDomains(configured)
      ensures !FalsyString(x) && IsLowerCase(x) && !IsTrimChar(x[0]) && !IsTrimChar(x[|x| - 1])
    {
      var i :| 0 <= i < |configured| && NormaliseDomain(configured[i]) == x;
    }
  }

  /** `Str::afterLast($s, $c)`: what follows the last `c`, or all of `s`
      when it holds no `c`. */
  function AfterLast(s: string, c: char): (r: string)
    ensures |r| <= |s| && r == s[|s| - |r|..]
    ensures c !in r
    ensures |r| < |s| ==> s[|s| - |r| - 1] == c
  {
    if s == [] then []
    else if s[|s| - 1] == c then []
    else
      var init := AfterLast(s[..|s| - 1], c);
      assert s[..|s| - 1][|s| - 1 - |init|..] + [s[|s| - 1]] == s[|s| - 1 - |init|..];
      init + [s[|s| - 1]]
  }

  /** The domain of the submitted value, lower-cased. */
  function EmailDomain(value: string): (r: string)
    ensures '@' !in r
    ensures IsLowerCase(r)
    ensures '@' !in value ==> r == Lower(value)
  {
    var email := Lower(value);
    var r := if '@' in email then AfterLast(email, '@') else email;
    assert forall i :: 0 <= i < |email| ==> (email[i] == '@' <==> value[i] == '@');
    assert IsLowerCase(r) by {
      forall i | 0 <= i < |r| ensures !('A' <= r[i] <= 'Z') {
        assert r[i] == email[|email| - |r| + i];
      }
    }
    r
  }

  /** The rule as intended: passes when no domain is configured, or when
      the value's domain is one of the normalised configured domains. */
  function Validate(configured: seq<Option<string>>, value: string): (passes: bool)
    ensures passes <==>
      (forall i :: 0 <= i < |configured| ==> FalsyString(NormaliseDomain(configured[i])))
      || (!FalsyString(EmailDomain(value))
          && exists i :: 0 <= i < |configured| && NormaliseDomain(configured[i]) == EmailDomain(value))
  {
    var domains := ApprovedDomains(configured);
    if domains == [] then
      assert forall i :: 0 <= i < |configured| ==> FalsyString(NormaliseDomain(configured[i])) by {
        forall i | 0 <= i < |configured| ensures FalsyString(NormaliseDomain(configured[i])) {
          var x := NormaliseDomain(configured[i]);
          assert x !in domains;
        }
      }
      true
    else
      var x := domains[0];
      assert x in domains;
      EmailDomain(value) in domains
  }

  // ---------------------------------------------------------------------
  // Properties of the rule

  /** Normalising a list with one more entry appends that entry's
      normalised form. */
  lemma NormaliseEachAppend(configured: seq<Option<string>>, entry: Option<string>)
    ensures NormaliseEach(configured + [entry]) == NormaliseEach(configured) + [NormaliseDomain(entry)]
  {
    MapAppend(NormaliseDomain, configured, entry);
  }

  /** `filter()` drops a falsy string appended to the list. */
  lemma {:induction false} DropFalsyAppendFalsy(s: seq<string>, x: string)
    requires FalsyString(x)
    ensures DropFalsy(s + [x]) == DropFalsy(s)
  {
    if s == [] {
      assert [] + [x] == [x];
      assert [x][1..] == [];
    } else {
      assert (s + [x])[1..] == s[1..] + [x];
      DropFalsyAppendFalsy(s[1..], x);
    }
  }

  /** An entry that normalises to a falsy string ('' or "0") leaves the
      approved-domain list as it was... */
  lemma BlankEntryDropped(configured: seq<Option<string>>, entry: Option<string>)
    requires FalsyString(NormaliseDomain(entry))
    ensures ApprovedDomains(configured + [entry]) == ApprovedDomains(configured)
  {
    NormaliseEachAppend(configured, entry);
    DropFalsyAppendFalsy(NormaliseEach(configured), NormaliseDomain(entry));
  }

  /** ...so it changes no verdict: it neither blocks other domains nor
      admits any value. */
  lemma BlankEntryIgnored(configured: seq<Option<string>>, entry: Option<string>,
                          extended: seq<Option<string>>, value: string)
    requires extended == configured + [entry]
    requires FalsyString(NormaliseDomain(entry))
    ensures Validate(extended, value) == Validate(configured, value)
  {
    BlankEntryDropped(configured, entry);
    SameDomainsSameVerdict(extended, configured, value);
  }

  /** The verdict depends on the configuration only through the
      approved-domain list. */
  lemma SameDomainsSameVerdict(a: seq<Option<string>>, b: seq<Option<string>>, value: string)
    requires ApprovedDomains(a) == ApprovedDomains(b)
    ensures Validate(a, value) == Validate(b, value)
  {
  }

  // ---------------------------------------------------------------------
  // The pipeline as written: `filter()` keeps every entry

  /** The approved-domain list as the pipeline builds it: `map()` turns each
      entry into a `Stringable` object, and `filter()` without a callback
      keeps every truthy element, which every object is, so a blank entry
      stays on the list as ''. */
  function ApprovedDomainsAsWritten(configured: seq<Option<string>>): (r: seq<string>)
    ensures Distinct(r)
    ensures r == [] <==> configured == []
    ensures forall x :: x in r <==> x in NormaliseEach(configured)
  {
    var normalised := NormaliseEach(configured);
    assert configured != [] ==> normalised[0] in normalised;
    Unique(normalised)
  }

  /** The rule over that list: it passes only for an empty configuration or
      a value whose domain is among the normalised entries, blank ones
      included. */
  function ValidateAsWritten(configured: seq<Option<string>>, value: string): (passes: bool)
    ensures passes <==> configured == [] || EmailDomain(value) in NormaliseEach(configured)
  {
    var domains := ApprovedDomainsAsWritten(configured);
    domains == [] || EmailDomain(value) in domains
  }

  /** A null entry normalises to ''. */
  lemma NullEntryIsBlank()
    ensures NormaliseDomain(None) == []
  {
    assert Lower("") == "" && LTrimAt("") == "";
    assert TrimStart("") == "" && TrimEnd("") == "";
  }

  /** As written, a configuration whose entries are all blank, such as a
      single null entry, rejects every email with a truthy domain... */
  lemma BlankEntryBlocksEveryDomain(configured: seq<Option<string>>, value: string)
    requires configured != []
    requires forall i :: 0 <= i < |configured| ==> FalsyString(NormaliseDomain(configured[i]))
    requires !FalsyString(EmailDomain(value))
    ensures !ValidateAsWritten(configured, value)
  {
    var normalised := NormaliseEach(configured);
    assert forall j :: 0 <= j < |normalised| ==> FalsyString(normalised[j]);
    TruthyNotAmongFalsy(normalised, EmailDomain(value));
  }

  /** As intended, such a configuration lets every email pass. */
  lemma BlankEntriesAcceptEveryEmail(configured: seq<Option<string>>, value: string)
    requires forall i :: 0 <= i < |configured| ==> FalsyString(NormaliseDomain(configured[i]))
    ensures Validate(configured, value)
  {
  }

  /** A truthy string is not in a list of falsy ones. */
  lemma TruthyNotAmongFalsy(s: seq<string>, x: string)
    requires forall j :: 0 <= j < |s| ==> FalsyString(s[j])
    requires !FalsyString(x)
    ensures x !in s
  {
  }

  /** And a blank entry beside real domains admits a value with an empty
      domain, such as "x@", which the same list without it rejects. */
  lemma BlankEntryAdmitsEmptyDomain(configured: seq<Option<string>>, extended: seq<Option<string>>, value: string)
    requires extended == configured + [None]
    requires EmailDomain(value) == []
    ensures ValidateAsWritten(extended, value)
    ensures Validate(extended, value) == Validate(configured, value)
    ensures (exists i :: 0 <= i < |configured| && !FalsyString(NormaliseDomain(configured[i]))) ==>
      !Validate(extended, value)
  {
    NullEntryIsBlank();
    NormaliseEachAppend(configured, None);
    assert NormaliseEach(extended)[|configured|] == EmailDomain(value);
    BlankEntryIgnored(configured, None, extended, value);
    if exists i :: 0 <= i < |configured| && !FalsyString(NormaliseDomain(configured[i])) {
      var i :| 0 <= i < |configured| && !FalsyString(NormaliseDomain(configured[i]));
      assert FalsyString(EmailDomain(value));
      assert !Validate(configured, value);
    }
  }

  /** Without blank entries the written pipeline and the intended one agree. */
  lemma AsWrittenAgreesWithoutBlankEntries(configured: seq<Option<string>>, value: string)
    requires forall i :: 0 <= i < |configured| ==> !FalsyString(NormaliseDomain(configured[i]))
    ensures ValidateAsWritten(configured, value) == Validate(configured, value)
  {
    var normalised := NormaliseEach(configured);
    DropFalsyKeepsTruthy(normalised);
    assert ApprovedDomains(configured) == ApprovedDomainsAsWritten(configured);
  }

  /** `filter()` keeps a list with no falsy string as it is. */
  lemma {:induction false} DropFalsyKeepsTruthy(s: seq<string>)
    requires forall i :: 0 <= i < |s| ==> !FalsyString(s[i])
    ensures DropFalsy(s) == s
  {
    if s != [] {
      assert !FalsyString(s[0]);
      assert forall i :: 0 <= i < |s[1..]| ==> s[1..][i] == s[i + 1];
      DropFalsyKeepsTruthy(s[1..]);
      assert s == [s[0]] + s[1..];
    }
  }

  // ---------------------------------------------------------------------
  // Further properties of the rule

  /** With nothing configured every value passes. */
  lemma EmptyListAcceptsAll(value: string)
    ensures Validate([], value)
  {
  }

  /** The comparison ignores letter case in the submitted value. */
  lemma CaseInsensitive(configured: seq<Option<string>>, value: string)
    ensures Validate(configured, value) == Validate(configured, Lower(value))
  {
    LowerIdempotent(value);
    assert Lower(value) == Lower(Lower(value));
    assert forall i :: 0 <= i < |value| ==> (value[i] == '@' <==> Lower(value)[i] == '@');
  }

  /** ...and in the configured domains. */
  lemma DomainCaseInsensitive(d: string)
    ensures NormaliseDomain(Some(d)) == NormaliseDomain(Some(Lower(d)))
  {
    LowerIdempotent(d);
  }

  /** A domain as an administrator would write it: lower-case, not starting
      with '@' and with no blank at either end. */
  predicate PlainDomain(d: string) {
    d != [] && IsLowerCase(d) && d[0] != '@' && !IsTrimChar(d[0]) && !IsTrimChar(d[|d| - 1])
  }

  /** The three steps of the normalisation, in order. */
  lemma NormaliseSteps(d: string)
    ensures NormaliseDomain(Some(d)) == Trim(LTrimAt(Lower(d)))
  {
  }

  /** A plain domain survives trimming. */
  lemma PlainDomainIsTrimmed(d: string)
    requires PlainDomain(d)
    ensures Trim(d) == d
  {
    TrimStartOfTrimmed(d);
    TrimEndOfTrimmed(d);
  }

  /** An entry that is an '@' and a plain domain is lower-case. */
  lemma AtEntryIsLowerCase(entry: string)
    requires |entry| >= 1 && entry[0] == '@' && PlainDomain(entry[1..])
    ensures Lower(entry) == entry
  {
    assert forall i :: 1 <= i < |entry| ==> entry[i] == entry[1..][i - 1];
    LowerOfLowerCase(entry);
  }

  /** A leading '@' is stripped from an entry... */
  lemma {:induction false} LeadingAtIsStripped(entry: string)
    requires |entry| >= 1 && entry[0] == '@' && PlainDomain(entry[1..])
    ensures NormaliseDomain(Some(entry)) == entry[1..]
  {
    var d := entry[1..];
    NormaliseSteps(entry);
    AtEntryIsLowerCase(entry);
    assert LTrimAt(entry) == LTrimAt(d) == d;
    PlainDomainIsTrimmed(d);
  }

  /** An entry that is a blank, an '@' and a plain domain is lower-case... */
  lemma BlankAtEntryIsLowerCase(entry: string)
    requires |entry| >= 2 && entry[0] == ' ' && entry[1] == '@' && PlainDomain(entry[2..])
    ensures Lower(entry) == entry
  {
    assert forall i :: 2 <= i < |entry| ==> entry[i] == entry[2..][i - 2];
    LowerOfLowerCase(entry);
  }

  /** ...and trimming it drops just the blank. */
  lemma BlankAtEntryTrimmed(entry: string)
    requires |entry| >= 2 && entry[0] == ' ' && entry[1] == '@' && PlainDomain(entry[2..])
    ensures Trim(entry) == entry[1..]
  {
    var at := entry[1..];
    assert TrimStart(entry) == TrimStart(at);
    TrimStartOfTrimmed(at);
    assert at[|at| - 1] == entry[2..][|entry| - 3];
    TrimEndOfTrimmed(at);
  }

  /** ...but because '@' is stripped before blanks are trimmed, an entry
      with a blank in front of its '@' keeps the '@'... */
  lemma {:induction false} BlankBeforeAtKeepsAt(entry: string)
    requires |entry| >= 2 && entry[0] == ' ' && entry[1] == '@' && PlainDomain(entry[2..])
    ensures NormaliseDomain(Some(entry)) == entry[1..]
  {
    NormaliseSteps(entry);
    BlankAtEntryIsLowerCase(entry);
    assert LTrimAt(entry) == entry;
    BlankAtEntryTrimmed(entry);
  }

  /** ...so normalising a normalised entry can change it again. */
  lemma NormaliseNotIdempotent(entry: string)
    requires |entry| >= 2 && entry[0] == ' ' && entry[1] == '@' && PlainDomain(entry[2..])
    ensures NormaliseDomain(Some(NormaliseDomain(Some(entry)))) != NormaliseDomain(Some(entry))
  {
    BlankBeforeAtKeepsAt(entry);
    var at := entry[1..];
    assert at[1..] == entry[2..];
    LeadingAtIsStripped(at);
  }

  /** An approved entry that kept its '@' never matches any value, since an
      email domain holds no '@'. */
  lemma EntryWithAtNeverMatches(entry: string, value: string)
    requires '@' in entry
    ensures EmailDomain(value) != entry
  {
  }
}
