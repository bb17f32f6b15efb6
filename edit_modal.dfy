/**
 * The edit dialog's draft logic: how the draft is seeded from the armed
 * record, how one form control updates it, and which drafts the browser's
 * constraint validation (`required`, `min="1"`) lets the form submit.
 */
module EditModal {
  import opened Records

  /** The six controls of the edit form. */
  datatype Input = Title | Author | Genre | PageCount | Description | ReadBox

  /** The control's `name` attribute, which is the draft field it writes. */
  function InputName(i: Input): string
  {
    match i
    case Title => "title"
    case Author => "author"
    case Genre => "genre"
    case PageCount => "pageCount"
    case Description => "description"
    case ReadBox => "read"
  }

  /** Only the "Already read?" control has `type="checkbox"`. */
  predicate IsCheckbox(i: Input)
  {
    i == ReadBox
  }

  /** The draft for an armed record: `book || {}`. */
  function Seed(target: Option<Record>): Record
  {
    match target
    case Some(book) => book
    case None => map[]
  }

  /**
   * The updater of `handleChange`: a copy of the draft with the field `name`
   * set to `checked` for a checkbox and to the control's raw text otherwise.
   */
  function ApplyChange(form: Record, name: string, value: string, isCheckbox: bool, checked: bool): (r: Record)
    ensures r.Keys == form.Keys + {name}
    ensures r[name] == (if isCheckbox then Bool(checked) else Str(value))
    ensures forall k :: k in form && k != name ==> r[k] == form[k]
  {
    form[name := if isCheckbox then Bool(checked) else Str(value)]
  }

  /** The edit form's `onChange` for one control. */
  function ChangeInput(form: Record, i: Input, value: string, checked: bool): (r: Record)
    ensures r.Keys == form.Keys + {InputName(i)}
    ensures Lookup(r, "id") == Lookup(form, "id")
    ensures InputName(i) in r
    ensures r[InputName(i)] == if i == ReadBox then Bool(checked) else Str(value)
    ensures forall k :: k in form && k != InputName(i) ==> k in r && r[k] == form[k]
  {
    ApplyChange(form, InputName(i), value, IsCheckbox(i), checked)
  }

  predicate IsDigit(c: char)
  {
    '0' <= c <= '9'
  }

  /** Text a number input holds as a whole number: one or more decimal digits. */
  predicate IsDigits(t: string)
  {
    |t| > 0 && forall i :: 0 <= i < |t| ==> IsDigit(t[i])
  }

  /** The number a string of decimal digits denotes. */
  function DigitsValue(t: string): nat
    requires forall i :: 0 <= i < |t| ==> IsDigit(t[i])
  {
    if t == [] then 0
    else
      var last := t[|t| - 1];
      assert IsDigit(last);
      DigitsValue(t[..|t| - 1]) * 10 + (last as int - '0' as int)
  }

  /**
   * The number the page-count control holds, or None when it is blank or
   * does not hold a whole number. The control shows `form.pageCount || ""`:
   * a server value 0 shows as blank; a typed value is the raw text.
   */
  function PageCountValue(form: Record): (r: Option<int>)
    ensures r.Some? ==> Filled(form, "pageCount")
    ensures "pageCount" !in form ==> r == None
    ensures "pageCount" in form && form["pageCount"].Num? ==>
              r == if form["pageCount"].n == 0 then None else Some(form["pageCount"].n)
    ensures "pageCount" in form && (form["pageCount"].Null? || form["pageCount"].Bool?) ==> r == None
  {
    if "pageCount" !in form then None
    else match form["pageCount"]
      case Num(n) => if n == 0 then None else Some(n)
      case Str(t) => if IsDigits(t) then Some(DigitsValue(t)) else None
      case _ => None
  }

  predicate IsLineBreak(c: char)
  {
    c == '\n' || c == '\r'
  }

  /**
   * The value sanitization of a single-line text input: every line break
   * is removed, and the other characters are kept in order.
   */
  function StripLineBreaks(t: string): (r: string)
    ensures |r| <= |t|
    ensures forall i :: 0 <= i < |r| ==> !IsLineBreak(r[i])
    ensures (forall i :: 0 <= i < |t| ==> !IsLineBreak(t[i])) ==> r == t
    ensures r == [] <==> forall i :: 0 <= i < |t| ==> IsLineBreak(t[i])
    ensures |t| == 1 ==> r == if IsLineBreak(t[0]) then [] else t
  {
    if t == [] then []
    else
      var rest := StripLineBreaks(t[1..]);
      assert forall i :: 0 <= i < |t[1..]| ==> t[1..][i] == t[i + 1];
      if IsLineBreak(t[0]) then rest else [t[0]] + rest
  }

  /**
   * Stripping works character by character: the text of two pieces is the
   * text of each, so with the one-character case it fixes the result.
   */
  lemma {:induction false} StripLineBreaksAppend(u: string, v: string)
    ensures StripLineBreaks(u + v) == StripLineBreaks(u) + StripLineBreaks(v)
    decreases |u|
  {
    if u != [] {
      assert (u + v)[0] == u[0];
      assert (u + v)[1..] == u[1..] + v;
      StripLineBreaksAppend(u[1..], v);
    } else {
      assert u + v == v;
    }
  }

  /**
   * A `required` single-line input shows `form[k] || ""`: it is filled when
   * the field is truthy and, for text, something other than line breaks
   * is left once the input has stripped them.
   */
  predicate LineFilled(form: Record, k: string)
  {
    Filled(form, k) && (form[k].Str? ==> StripLineBreaks(form[k].s) != [])
  }

  /**
   * The browser lets the form submit: the title, author and genre inputs
   * and the description textarea are `required`, and the page count is
   * `required` with `min="1"`. The textarea keeps line breaks.
   */
  predicate Submittable(form: Record): (ok: bool)
    ensures ok ==> Filled(form, "title") && Filled(form, "author") && Filled(form, "genre")
                   && Filled(form, "pageCount") && Filled(form, "description")
    ensures ok ==> PageCountValue(form).Some? && PageCountValue(form).value >= 1
  {
    LineFilled(form, "title") && LineFilled(form, "author") && LineFilled(form, "genre")
    && Filled(form, "description")
    && PageCountValue(form).Some? && PageCountValue(form).value >= 1
  }

  /** A typed page count passes `min="1"` exactly when one of its digits is not zero. */
  lemma {:induction false} DigitsAtLeastOne(t: string)
    requires IsDigits(t)
    ensures DigitsValue(t) >= 1 <==> exists i :: 0 <= i < |t| && t[i] != '0'
  {
    var n := |t|;
    if n == 1 {
      assert t[..0] == [];
    } else {
      var p := t[..n - 1];
      assert forall i :: 0 <= i < |p| ==> p[i] == t[i];
      DigitsAtLeastOne(p);
      if DigitsValue(t) >= 1 {
        if DigitsValue(p) == 0 {
          assert t[n - 1] != '0';
        } else {
          var i :| 0 <= i < |p| && p[i] != '0';
          assert t[i] != '0';
        }
      } else {
        assert DigitsValue(p) == 0;
        assert t[n - 1] == '0';
        forall i | 0 <= i < n ensures t[i] == '0' {
          if i < n - 1 {
            assert p[i] == t[i];
          }
        }
      }
    }
  }

  /** Typing into the page-count control sets what the browser validates. */
  lemma TypedPageCount(form: Record, text: string, checked: bool)
    ensures PageCountValue(ChangeInput(form, PageCount, text, checked))
            == (if IsDigits(text) then Some(DigitsValue(text)) else None)
  {
  }

  /**
   * After typing digit text into the page-count control, the form passes
   * `min="1"` exactly when one of the typed digits is not zero.
   */
  lemma TypedDigitsPassMin(form: Record, text: string, checked: bool)
    requires IsDigits(text)
    ensures var v := PageCountValue(ChangeInput(form, PageCount, text, checked));
            v.Some? && (v.value >= 1 <==> exists i :: 0 <= i < |text| && text[i] != '0')
  {
    TypedPageCount(form, text, checked);
    DigitsAtLeastOne(text);
  }

  /**
   * A title, author or genre made only of line breaks shows as an empty
   * input, so `required` blocks the form however the rest is filled.
   */
  lemma LineBreaksOnlyBlockSubmit(form: Record, k: string)
    requires k == "title" || k == "author" || k == "genre"
    requires k in form && form[k].Str?
    requires forall i :: 0 <= i < |form[k].s| ==> IsLineBreak(form[k].s[i])
    ensures !Submittable(form)
  {
  }
}
