/** `Pagination`: whether the control renders, which of its buttons are
    disabled and the text between them. Pages are integers; an absent or NaN
    `totalPages` hides the control just as 0 does. */
module Pagination {
  import opened Js
  import App

  /** `!(!totalPages || totalPages <= 1)`: the control shows exactly when
      there are at least two pages. */
  predicate Visible(totalPages: int)
    ensures Visible(totalPages) <==> totalPages >= 2
  {
    totalPages != 0 && !(totalPages <= 1)
  }

  /** `disabled={page <= 1}`: the previous button is enabled exactly when the
      page before the current one is a page number. */
  predicate PrevDisabled(page: int)
    ensures !PrevDisabled(page) <==> page - 1 >= 1
  {
    page <= 1
  }

  /** `disabled={page >= totalPages}`: the next button is enabled exactly when
      the page after the current one exists. */
  predicate NextDisabled(page: int, totalPages: int)
    ensures !NextDisabled(page, totalPages) <==> page + 1 <= totalPages
  {
    page >= totalPages
  }

  const SEPARATOR := " — "

  /** `(label ? label + ' — ' : '') + 'página '` */
  function Heading(caption: Option<string>): string
  {
    (if Present(caption) then caption.value + SEPARATOR else "") + "página "
  }

  /** `page + ' / ' + totalPages` */
  function Counter(page: int, totalPages: int): string
  {
    IntToString(page) + " / " + IntToString(totalPages)
  }

  /** The text between the buttons: the caption and a dash when there is a
      caption, then "página ", then the counter. */
  function InfoText(page: int, totalPages: int, caption: Option<string>): (r: string)
    ensures Present(caption) ==>
      |r| > |caption.value| + |SEPARATOR| && r[..|caption.value| + |SEPARATOR|] == caption.value + SEPARATOR
    ensures !Present(caption) ==> |r| > 7 && r[..7] == "página "
    ensures |r| >= |Counter(page, totalPages)| && r[|r| - |Counter(page, totalPages)|..] == Counter(page, totalPages)
  {
    Heading(caption) + Counter(page, totalPages)
  }

  /** The control's predicates are the same as the inline controls of the
      legacy shell, and when shown on an in-range page at least one button is
      enabled; both are enabled strictly inside the range. */
  lemma AgreesWithShellControls(page: int, totalPages: int)
    ensures Visible(totalPages) <==> App.ControlsShown(totalPages)
    ensures PrevDisabled(page) <==> App.PrevDisabled(page)
    ensures NextDisabled(page, totalPages) <==> App.NextDisabled(page, totalPages)
    ensures 1 < page < totalPages ==> !PrevDisabled(page) && !NextDisabled(page, totalPages)
    ensures page <= 0 ==> PrevDisabled(page)
    ensures page > totalPages ==> NextDisabled(page, totalPages)
  {
  }

  /** The position of the first `c` in `w`, or `|w|` when there is none. */
  function CharIndex(w: string, c: char): (r: nat)
    ensures r <= |w|
    decreases |w|
  {
    if w == [] then 0 else if w[0] == c then 0 else 1 + CharIndex(w[1..], c)
  }

  lemma {:induction false} CharIndexAfter(x: string, rest: string, c: char)
    requires c !in x && |rest| > 0 && rest[0] == c
    ensures CharIndex(x + rest, c) == |x|
    decreases |x|
  {
    if x == [] {
      assert x + rest == rest;
    } else {
      assert (x + rest)[0] == x[0];
      assert (x + rest)[1..] == x[1..] + rest;
      assert c !in x[1..];
      CharIndexAfter(x[1..], rest, c);
    }
  }

  /** If `x + s + y == x' + s + y'` and neither `x` nor `x'` contains the
      separator's first character, the pieces match. */
  lemma {:induction false} SplitAtSeparator(x: string, y: string, x': string, y': string, s: string)
    requires |s| > 0 && s[0] !in x && s[0] !in x'
    requires x + s + y == x' + s + y'
    ensures x == x' && y == y'
  {
    var w := x + s + y;
    assert w == x + (s + y) && w == x' + (s + y');
    CharIndexAfter(x, s + y, s[0]);
    CharIndexAfter(x', s + y', s[0]);
    assert x == w[..|x|] == x';
    assert y == w[|x| + |s|..] == y';
  }

  /** The counter determines both numbers. */
  lemma {:induction false} CounterInjective(p: int, t: int, p': int, t': int)
    requires Counter(p, t) == Counter(p', t')
    ensures p == p' && t == t'
  {
    var a, b, a', b' := IntToString(p), IntToString(t), IntToString(p'), IntToString(t');
    NumeralChars(p);
    NumeralChars(p');
    assert ' ' !in a && ' ' !in a';
    SplitAtSeparator(a, b, a', b', " / ");
    IntToStringInjective(p, p');
    IntToStringInjective(t, t');
  }

  /** The info text determines both numbers: two different page positions
      under the same caption never read the same. */
  lemma {:induction false} InfoTextInjective(p: int, t: int, p': int, t': int, caption: Option<string>)
    requires InfoText(p, t, caption) == InfoText(p', t', caption)
    ensures p == p' && t == t'
  {
    var h := Heading(caption);
    assert Counter(p, t) == InfoText(p, t, caption)[|h|..];
    assert Counter(p', t') == InfoText(p', t', caption)[|h|..];
    CounterInjective(p, t, p', t');
  }
}
