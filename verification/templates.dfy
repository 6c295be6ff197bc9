/** Standard opening templates and the function that stamps a template
    onto an opening record. */
module Templates {
  import opened Project

  /** One row of the template table: the standard size and the optional
      extra attributes of a kind of opening. */
  datatype Template = Template(
    width: int,
    height: int,
    shape: Option<string>,
    diameter: Option<int>,
    count: Option<int>,
    layout: Option<string>)

  const Door := "porte"
  const Window := "fenêtre"
  const Socket := "prise"
  const Switch := "interrupteur"
  const Pipe := "tuyau d'eau"
  const Other := "autre"

  const RoundShape := "rond"

  /** The constant template table, keyed by opening kind. */
  const Table: map<string, Template> := map[
    Door := Template(90, 210, None, None, None, None),
    Window := Template(100, 100, None, None, None, None),
    Socket := Template(7, 7, None, None, Some(1), Some("vertical")),
    Switch := Template(7, 7, None, None, Some(1), Some("vertical")),
    Pipe := Template(10, 10, Some(RoundShape), Some(10), None, None),
    Other := Template(60, 60, None, None, None, None)
  ]

  /** The number a string of decimal digits denotes, most significant
      digit first. */
  function DigitsValue(s: string): int {
    if s == [] then 0 else 10 * DigitsValue(s[..|s| - 1]) + (s[|s| - 1] as int - '0' as int)
  }

  /** Decimal rendering of a natural number, used for the "(xN)" suffix:
      digits without a leading zero that denote n. */
  function DecimalString(n: nat): (s: string)
    ensures |s| >= 1
    ensures forall i :: 0 <= i < |s| ==> '0' <= s[i] <= '9'
    ensures DigitsValue(s) == n
    ensures s[0] == '0' ==> n == 0 && |s| == 1
  {
    var d := [(n % 10) as char + '0'];
    if n < 10 then d
    else
      var p := DecimalString(n / 10);
      assert (p + d)[..|p + d| - 1] == p;
      p + d
  }

  /** Stamps the template of the given kind onto a copy of o. An unknown
      kind returns o as it is. */
  function ApplyTemplate(kind: string, o: Opening): (r: Opening)
    ensures kind !in Table ==> r == o
    ensures kind in Table ==>
      && r.baseKind == Some(kind)
      && r.width == Table[kind].width
      && r.height == Table[kind].height
    ensures r.id == o.id && r.x == o.x && r.y == o.y
    ensures kind in Table && kind != Pipe ==> r.shape == o.shape && r.diameter == o.diameter
    ensures kind in Table && kind != Socket && kind != Switch ==> r.count == o.count && r.layout == o.layout
    ensures kind == Pipe ==> r.shape == Some(RoundShape) && r.diameter == Some(10)
    ensures kind == Socket || kind == Switch ==> r.count == Table[kind].count && r.layout == Table[kind].layout
  {
    if kind !in Table then o
    else
      var t := Table[kind];
      var stamped := o.(baseKind := Some(kind), kind := kind, width := t.width, height := t.height);
      var piped := if kind == Pipe then stamped.(shape := Some(RoundShape), diameter := t.diameter) else stamped;
      if kind == Socket || kind == Switch then
        var counted := piped.(count := t.count, layout := t.layout);
        if counted.count.Some? && counted.count.value > 1 then
          counted.(kind := kind + " (x" + DecimalString(counted.count.value) + ")")
        else counted
      else piped
  }

  /** Every known kind keeps its key as the displayed kind: the only
      table entries with an element count have a count of one. */
  lemma KindIsKey(kind: string, o: Opening)
    requires kind in Table
    ensures ApplyTemplate(kind, o).kind == kind
  {
  }

  /** Applying the same template twice gives the same opening as once. */
  lemma ApplyTemplateIdempotent(kind: string, o: Opening)
    ensures ApplyTemplate(kind, ApplyTemplate(kind, o)) == ApplyTemplate(kind, o)
  {
  }
}
