/** The creation form: its initial contents, the single-field update a
    keystroke or selection makes, and the submit guard that lets a form
    through only when goal and duration hold more than whitespace. */
module PlanForm {
  import opened Wrappers
  import opened Types

  /** The characters `String.prototype.trim` strips: ECMAScript WhiteSpace
      (tab, vertical tab, form feed, no-break space, byte order mark and the
      space separators) and LineTerminator (line feed, carriage return, line
      and paragraph separators). */
  predicate IsWhitespace(c: char) {
    c == '\t' || c == '\n' || c == '\U{B}' || c == '\U{C}' || c == '\r' || c == ' '
    || c == '\U{A0}' || c == '\U{1680}' || ('\U{2000}' <= c <= '\U{200A}')
    || c == '\U{2028}' || c == '\U{2029}' || c == '\U{202F}' || c == '\U{205F}'
    || c == '\U{3000}' || c == '\U{FEFF}'
  }

  predicate AllWhitespace(s: string) {
    forall i :: 0 <= i < |s| ==> IsWhitespace(s[i])
  }

  /** `s` with its leading whitespace removed. */
  function TrimStart(s: string): (r: string)
    ensures |r| <= |s| && r == s[|s| - |r|..]
    ensures AllWhitespace(s[..|s| - |r|])
    ensures |r| > 0 ==> !IsWhitespace(r[0])
  {
    if |s| > 0 && IsWhitespace(s[0]) then TrimStart(s[1..]) else s
  }

  /** `s` with its trailing whitespace removed. */
  function TrimEnd(s: string): (r: string)
    ensures |r| <= |s| && r == s[..|r|]
    ensures AllWhitespace(s[|r|..])
    ensures |r| > 0 ==> !IsWhitespace(r[|r| - 1])
  {
    if |s| > 0 && IsWhitespace(s[|s| - 1]) then TrimEnd(s[..|s| - 1]) else s
  }

  /** `s.trim()`: the part of `s` between its leading and trailing runs of
      whitespace. It starts and ends with a non-whitespace character, and it
      is empty exactly when `s` is all whitespace. */
  function Trim(s: string): (r: string)
    ensures exists a :: 0 <= a <= a + |r| <= |s| && r == s[a..a + |r|]
                        && AllWhitespace(s[..a]) && AllWhitespace(s[a + |r|..])
    ensures |r| > 0 ==> !IsWhitespace(r[0]) && !IsWhitespace(r[|r| - 1])
    ensures r == [] <==> AllWhitespace(s)
  {
    var left := TrimStart(s);
    var r := TrimEnd(left);
    var a := |s| - |left|;
    assert r == s[a..a + |r|];
    assert s[a + |r|..] == left[|r|..];
    assert AllWhitespace(s[..a]) && AllWhitespace(s[a + |r|..]);
    WhitespaceParts(s, a, a + |r|);
    r
  }

  /** A string is all whitespace exactly when each of three consecutive
      pieces of it is. */
  lemma WhitespaceParts(s: string, a: nat, b: nat)
    requires a <= b <= |s|
    ensures AllWhitespace(s) <==> AllWhitespace(s[..a]) && AllWhitespace(s[a..b]) && AllWhitespace(s[b..])
  {
    if AllWhitespace(s[..a]) && AllWhitespace(s[a..b]) && AllWhitespace(s[b..]) {
      forall i | 0 <= i < |s|
        ensures IsWhitespace(s[i])
      {
        if i < a {
          assert s[..a][i] == s[i];
        } else if i < b {
          assert s[a..b][i - a] == s[i];
        } else {
          assert s[b..][i - b] == s[i];
        }
      }
    }
  }

  /** The form before the user types anything. */
  const InitialForm: PlanFormData := PlanFormData("", "", "", Moderate)

  /** The submit handler: the form is handed on, unchanged and untrimmed,
      exactly when its goal and its duration are not blank; the context may
      be anything. */
  function HandleSubmit(form: PlanFormData): (r: Option<PlanFormData>)
    ensures r.Some? <==> !AllWhitespace(form.goal) && !AllWhitespace(form.duration)
    ensures r.Some? ==> r.value == form
  {
    if Trim(form.goal) != "" && Trim(form.duration) != "" then Some(form) else None
  }

  /** An immediate submit of the initial form is refused. */
  lemma InitialFormRefused()
    ensures HandleSubmit(InitialForm) == None
  {
  }

  /** The four named inputs of the form. */
  datatype Field = GoalField | DurationField | ContextField | IntensityField

  /** A change event from input `name` carrying `value`. The intensity select
      only offers the three wire names, so its value always parses. */
  function HandleChange(form: PlanFormData, name: Field, value: string): (r: PlanFormData)
    requires name == IntensityField ==> ParseIntensity(value).Some?
    ensures r.goal == (if name == GoalField then value else form.goal)
    ensures r.duration == (if name == DurationField then value else form.duration)
    ensures r.context == (if name == ContextField then value else form.context)
    ensures IntensityName(r.intensity) == (if name == IntensityField then value else IntensityName(form.intensity))
  {
    match name
    case GoalField => form.(goal := value)
    case DurationField => form.(duration := value)
    case ContextField => form.(context := value)
    case IntensityField => form.(intensity := ParseIntensity(value).value)
  }

  /** Typing a goal and a duration that are not blank into the initial form
      makes it submittable, with exactly what was typed. */
  lemma TypedFormSubmits(goal: string, duration: string)
    requires !AllWhitespace(goal) && !AllWhitespace(duration)
    ensures HandleSubmit(HandleChange(HandleChange(InitialForm, GoalField, goal), DurationField, duration))
         == Some(PlanFormData(goal, duration, "", Moderate))
  {
  }
}
