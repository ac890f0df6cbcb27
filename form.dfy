/** The add-task form: the whitespace trimming of the input's value and the gate
    that decides whether a submit issues a create request. */
module Form {
  import opened Tasks

  /** The code points that `String.prototype.trim` removes: the ECMAScript WhiteSpace
      characters (tab, vertical tab, form feed, space, no-break space U+00A0, zero
      width no-break space U+FEFF and the other space separators) and LineTerminator
      characters (LF, CR, U+2028, U+2029). */
  const SpaceCodes: set<int> :=
    {0x09, 0x0A, 0x0B, 0x0C, 0x0D, 0x20, 0xA0, 0x1680,
     0x2000, 0x2001, 0x2002, 0x2003, 0x2004, 0x2005, 0x2006, 0x2007, 0x2008, 0x2009, 0x200A,
     0x2028, 0x2029, 0x202F, 0x205F, 0x3000, 0xFEFF}

  predicate IsSpace(c: char)
  {
    c as int in SpaceCodes
  }

  predicate AllSpace(s: string)
  {
    forall i :: 0 <= i < |s| ==> IsSpace(s[i])
  }

  /** The length of the run of whitespace at the start of `s`. */
  function LeadingSpaces(s: string): (n: nat)
    ensures n <= |s|
    ensures forall i :: 0 <= i < n ==> IsSpace(s[i])
    ensures n < |s| ==> !IsSpace(s[n])
    decreases |s|
  {
    if s != [] && IsSpace(s[0]) then
      var m := LeadingSpaces(s[1..]);
      assert forall i :: 1 <= i < 1 + m ==> s[i] == s[1..][i - 1];
      1 + m
    else 0
  }

  /** The length of the run of whitespace at the end of `s`. */
  function TrailingSpaces(s: string): (n: nat)
    ensures n <= |s|
    ensures forall i :: |s| - n <= i < |s| ==> IsSpace(s[i])
    ensures n < |s| ==> !IsSpace(s[|s| - 1 - n])
    decreases |s|
  {
    if s != [] && IsSpace(s[|s| - 1]) then
      var front := s[..|s| - 1];
      var m := TrailingSpaces(front);
      assert forall i :: 0 <= i < |front| ==> s[i] == front[i];
      1 + m
    else 0
  }

  /** `s.trim()`: `s` with the whitespace at both ends taken off. The result is the
      part of `s` after its leading whitespace; what is cut off on either side is all
      whitespace; the result neither starts nor ends with whitespace; and it is empty
      exactly when `s` is all whitespace. */
  function Trim(s: string): (r: string)
    ensures LeadingSpaces(s) + |r| <= |s|
    ensures r == s[LeadingSpaces(s)..LeadingSpaces(s) + |r|]
    ensures AllSpace(s[..LeadingSpaces(s)]) && AllSpace(s[LeadingSpaces(s) + |r|..])
    ensures r != [] ==> !IsSpace(r[0]) && !IsSpace(r[|r| - 1])
    ensures r == [] <==> AllSpace(s)
  {
    var a := LeadingSpaces(s);
    var rest := s[a..];
    var r := rest[..|rest| - TrailingSpaces(rest)];
    TrimParts(s, a, rest, r);
    r
  }

  lemma TrimParts(s: string, a: nat, rest: string, r: string)
    requires a == LeadingSpaces(s) && rest == s[a..]
    requires r == rest[..|rest| - TrailingSpaces(rest)]
    ensures a + |r| <= |s| && r == s[a..a + |r|]
    ensures AllSpace(s[..a]) && AllSpace(s[a + |r|..])
    ensures r != [] ==> !IsSpace(r[0]) && !IsSpace(r[|r| - 1])
    ensures r == [] <==> AllSpace(s)
  {
    LeadingRun(s);
    TrailingRun(rest);
    TrimSlice(s, a, rest, |rest| - TrailingSpaces(rest), r);
    TrimEnds(s, a, rest, r);
    TrimEmpty(s, a, rest, r);
  }

  /** The leading run, as a string, is all whitespace. */
  lemma LeadingRun(s: string)
    ensures AllSpace(s[..LeadingSpaces(s)])
  {
    var n := LeadingSpaces(s);
    assert forall i :: 0 <= i < n ==> s[..n][i] == s[i];
  }

  /** The trailing run, as a string, is all whitespace. */
  lemma TrailingRun(s: string)
    ensures AllSpace(s[|s| - TrailingSpaces(s)..])
  {
    var n := TrailingSpaces(s);
    var run := s[|s| - n..];
    forall i | 0 <= i < |run| ensures IsSpace(run[i]) {
      assert run[i] == s[|s| - n + i];
    }
  }

  lemma TrimSlice(s: string, a: nat, rest: string, k: nat, r: string)
    requires a <= |s| && rest == s[a..] && k <= |rest| && r == rest[..k]
    requires AllSpace(rest[k..])
    ensures a + |r| <= |s| && r == s[a..a + |r|]
    ensures AllSpace(s[a + |r|..])
  {
    assert s[a + k..] == rest[k..];
  }

  lemma TrimEnds(s: string, a: nat, rest: string, r: string)
    requires a == LeadingSpaces(s) && rest == s[a..]
    requires r == rest[..|rest| - TrailingSpaces(rest)]
    ensures r != [] ==> !IsSpace(r[0]) && !IsSpace(r[|r| - 1])
  {
    if r != [] {
      assert r[0] == s[a];
      assert r[|r| - 1] == rest[|rest| - 1 - TrailingSpaces(rest)];
    }
  }

  lemma TrimEmpty(s: string, a: nat, rest: string, r: string)
    requires a == LeadingSpaces(s) && rest == s[a..]
    requires r == rest[..|rest| - TrailingSpaces(rest)]
    ensures r == [] <==> AllSpace(s)
  {
    assert a < |s| ==> rest[0] == s[a];
    if r == [] {
      assert a == |s|;
    }
  }

  /** Trimming twice is trimming once. */
  lemma TrimIdempotent(s: string)
    ensures Trim(Trim(s)) == Trim(s)
  {
    var r := Trim(s);
    if r != [] {
      assert LeadingSpaces(r) == 0;
      assert r[0..] == r;
      assert TrailingSpaces(r) == 0;
    }
  }

  /** The JSON body of the create request: `{title, completed}`. */
  datatype NewTask = NewTask(title: string, completed: bool)

  /** What a submit leaves in the input field, and the create request it issues, if any. */
  datatype Submission = Submission(input: string, request: Option<NewTask>)

  /** The submit handler: trim the input's value; an empty result issues nothing and
      leaves the field alone; otherwise the field is cleared and a create request with
      the trimmed title and `completed: false` is issued. */
  function SubmitGate(value: string): (g: Submission)
    ensures g.request.None? <==> AllSpace(value)
    ensures g.request.None? ==> g.input == value
    ensures g.request.Some? ==> g.input == [] && !g.request.value.completed
    ensures g.request.Some? ==> g.request.value.title == Trim(value)
  {
    var title := Trim(value);
    if title != [] then Submission([], Some(NewTask(title, false)))
    else Submission(value, None)
  }

  /** Submitting "Buy milk" clears the field and issues one create request for
      `{title: "Buy milk", completed: false}`. */
  lemma SubmitBuyMilk()
    ensures SubmitGate("Buy milk") == Submission("", Some(NewTask("Buy milk", false)))
  {
    var s := "Buy milk";
    assert !IsSpace(s[0]);
    assert LeadingSpaces(s) == 0;
    assert s[0..] == s;
    assert !IsSpace(s[|s| - 1]);
    assert TrailingSpaces(s) == 0;
    assert Trim(s) == s;
  }
}
