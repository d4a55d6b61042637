/** The waitlist form: trim both fields, refuse a blank one with a failure
    toast, otherwise greet the name and reset the form. */
module Waitlist {
  import Toasts

  /** The characters String.prototype.trim removes: the white space and line
      terminators of ECMAScript (tab, vertical tab, form feed, space,
      no-break space, byte order mark, the Unicode space separators, line
      feed, carriage return, line and paragraph separators). */
  predicate IsSpace(c: char)
  {
    || c == '\t' || c == '\U{000B}' || c == '\U{000C}' || c == ' '
    || c == '\U{00A0}' || c == '\U{FEFF}' || c == '\U{1680}'
    || ('\U{2000}' <= c <= '\U{200A}')
    || c == '\U{202F}' || c == '\U{205F}' || c == '\U{3000}'
    || c == '\n' || c == '\r' || c == '\U{2028}' || c == '\U{2029}'
  }

  predicate AllSpace(s: string)
  {
    forall i :: 0 <= i < |s| ==> IsSpace(s[i])
  }

  /** s without its leading white space: a suffix of s, everything cut off
      is white space, and what is left does not start with it. */
  function TrimStart(s: string): (r: string)
    ensures |r| <= |s| && r == s[|s| - |r|..]
    ensures forall i :: 0 <= i < |s| - |r| ==> IsSpace(s[i])
    ensures r != [] ==> !IsSpace(r[0])
  {
    if s != [] && IsSpace(s[0]) then TrimStart(s[1..]) else s
  }

  /** s without its trailing white space: a prefix of s, everything cut off
      is white space, and what is left does not end with it. */
  function TrimEnd(s: string): (r: string)
    ensures |r| <= |s| && r == s[..|r|]
    ensures forall i :: |r| <= i < |s| ==> IsSpace(s[i])
    ensures r != [] ==> !IsSpace(r[|r| - 1])
  {
    if s != [] && IsSpace(s[|s| - 1]) then TrimEnd(s[..|s| - 1]) else s
  }

  /** String.prototype.trim: the result is the slice of s that remains once
      the leading run of white space (of length k) and the trailing run are
      cut off; no white space is left at either end. */
  function Trim(s: string): (r: string)
    ensures |r| <= |s|
    ensures var k := |s| - |TrimStart(s)|;
      && k + |r| <= |s| && r == s[k..k + |r|]
      && AllSpace(s[..k]) && AllSpace(s[k + |r|..])
    ensures r != [] ==> !IsSpace(r[0]) && !IsSpace(r[|r| - 1])
  {
    TrimSlice(s);
    TrimEnd(TrimStart(s))
  }

  /** Trimming cuts off white space only, from both ends. */
  lemma TrimSlice(s: string)
    ensures var t := TrimStart(s); var r := TrimEnd(t); var k := |s| - |t|;
      && k + |r| <= |s| && r == s[k..k + |r|]
      && AllSpace(s[..k]) && AllSpace(s[k + |r|..])
  {
    var t := TrimStart(s);
    LeadingCut(s);
    TrailingCut(t);
    CutBothEnds(s, t, TrimEnd(t));
  }

  /** t is s with a white-space prefix cut, and r is t with a white-space
      suffix cut: r is a slice of s with white space on either side. */
  lemma CutBothEnds(s: string, t: string, r: string)
    requires |t| <= |s| && t == s[|s| - |t|..] && AllSpace(s[..|s| - |t|])
    requires |r| <= |t| && r == t[..|r|] && AllSpace(t[|r|..])
    ensures var k := |s| - |t|;
      && k + |r| <= |s| && r == s[k..k + |r|]
      && AllSpace(s[..k]) && AllSpace(s[k + |r|..])
  {
  }

  /** What TrimStart cuts off is white space. */
  lemma LeadingCut(s: string)
    ensures AllSpace(s[..|s| - |TrimStart(s)|])
  {
  }

  /** What TrimEnd cuts off is white space. */
  lemma TrailingCut(t: string)
    ensures AllSpace(t[|TrimEnd(t)|..])
  {
  }

  /** A field trims to the empty string exactly when it is all white space. */
  lemma TrimEmptyIffBlank(s: string)
    ensures Trim(s) == [] <==> AllSpace(s)
  {
  }

  /** Trimmed text neither starts nor ends with white space, and trimming it
      again changes nothing. */
  lemma TrimIdempotent(s: string)
    ensures Trim(s) != [] ==> !IsSpace(Trim(s)[0]) && !IsSpace(Trim(s)[|Trim(s)| - 1])
    ensures Trim(Trim(s)) == Trim(s)
  {
  }

  /** The outcome of a submission. */
  datatype Verdict = Incomplete | Joined(name: string)

  /** The validation of the submit handler. */
  function Check(name: string, email: string): (v: Verdict)
    ensures v == Incomplete <==> AllSpace(name) || AllSpace(email)
    ensures v.Joined? ==> v.name == Trim(name) && v.name != []
  {
    TrimEmptyIffBlank(name);
    TrimEmptyIffBlank(email);
    var n, e := Trim(name), Trim(email);
    if n == [] || e == [] then Incomplete else Joined(n)
  }

  const FailureTitle := "Ops"
  const FailureMessage := "Preencha nome e e-mail."
  const SuccessTitle := "Boa!"
  const SuccessPrefix := "Voc\U{00EA} entrou na lista, "
  const SuccessSuffix := ". (demo)"

  /** The success message contains the name, right after the fixed greeting. */
  function SuccessMessage(name: string): (m: string)
    ensures |m| == |SuccessPrefix| + |name| + |SuccessSuffix|
    ensures m[..|SuccessPrefix|] == SuccessPrefix
    ensures m[|SuccessPrefix|..|SuccessPrefix| + |name|] == name
  {
    var m := SuccessPrefix + name + SuccessSuffix;
    assert m[..|SuccessPrefix|] == SuccessPrefix;
    assert m[|SuccessPrefix|..|SuccessPrefix| + |name|] == name;
    m
  }

  /** A blank name is refused; a filled-in pair is accepted with the trimmed name. */
  lemma CheckExamples()
    ensures Check("", "a@b.com") == Incomplete
    ensures Check(" Ana ", "ana@x.com") == Joined("Ana")
  {
    assert !IsSpace('a') && !IsSpace('A');
    assert TrimStart(" Ana ") == "Ana ";
    assert TrimEnd("Ana ") == "Ana";
    assert TrimStart("a@b.com") == "a@b.com";
    assert TrimEnd("a@b.com") == "a@b.com";
    assert TrimStart("ana@x.com") == "ana@x.com";
    assert TrimEnd("ana@x.com") == "ana@x.com";
  }

  /** The two text fields of #waitlistForm. */
  class WaitlistForm {
    var name: string
    var email: string

    constructor (typedName: string, typedEmail: string)
      ensures name == typedName && email == typedEmail
    {
      name, email := typedName, typedEmail;
    }

    /** The submit handler. A blank field (after trimming) shows the failure
        toast and keeps what was typed; otherwise the success toast greets the
        trimmed name and the form is reset to empty fields. Either way the
        toast is shown as written: its dismissal restarts, and a pending fade
        is left alone. */
    method Submit(toaster: Toasts.Toaster)
      modifies this, toaster
      ensures toaster.OnScreen()
      ensures toaster.toastTimer == old(toaster.nextId) && toaster.nextId == old(toaster.nextId) + 1
      ensures toaster.fadeTimer == old(toaster.fadeTimer)
      ensures toaster.pending ==
        old(toaster.pending) - {Toasts.Dismissal(old(toaster.toastTimer))} + {Toasts.Dismissal(toaster.toastTimer)}
      ensures old(toaster.AsWrittenOk()) ==> toaster.AsWrittenOk()
      ensures AllSpace(old(name)) || AllSpace(old(email)) ==>
        && name == old(name) && email == old(email)
        && toaster.title == FailureTitle && toaster.message == FailureMessage
      ensures !(AllSpace(old(name)) || AllSpace(old(email))) ==>
        && name == [] && email == []
        && toaster.title == SuccessTitle && toaster.message == SuccessMessage(Trim(old(name)))
    {
      var verdict := Check(name, email);
      if verdict == Incomplete {
        toaster.ShowAsWritten(FailureTitle, FailureMessage);
        return;
      }
      toaster.ShowAsWritten(SuccessTitle, SuccessMessage(verdict.name));
      name, email := [], [];
    }
  }
}
