/** The popup text of `src/mapping.py`: an HTML fragment listing a row's name,
    description and other non-empty attributes. */
module Mapping {
  import opened Wrappers
  import opened Seqs
  import opened Dicts
  import opened Rows

  const Separator := "<br>"
  const NoAttributes := "<i>Sem atributos</i>"
  const NameLabel := "<b>Nome:</b> "
  const DescriptionLabel := "<b>Descrição:</b> "

  /** The part for column `key` when `row[key]` exists and is truthy. */
  function LabelledPart(attrs: Dict<Value>, key: string, caption: string): seq<string>
  {
    match Get(attrs, key)
    case Some(v) => if Truthy(v) then [caption + Str(v)] else []
    case None => []
  }

  /** The columns never listed as generic attributes. */
  predicate Reserved(key: string)
  {
    key == NameColumn || key == DescriptionColumn || key == GeometryColumn || key == LayerColumn
  }

  /** A generic attribute is listed when its column is not reserved and its value is
      neither `None` nor `""`; unlike the name and the description, a `0` is listed. */
  predicate Listed(p: (string, Value))
  {
    !Reserved(p.0) && p.1 != Null && p.1 != Text("")
  }

  /** `f"<b>{k}:</b> {v}"` */
  function AttributeLine(p: (string, Value)): string
  {
    "<b>" + p.0 + ":</b> " + Str(p.1)
  }

  /** The generic parts of the columns in `attrs`, in column order, as the loop appends
      them. */
  function AttributeParts(attrs: Dict<Value>): seq<string>
  {
    if attrs == [] then []
    else
      var last := attrs[|attrs| - 1];
      AttributeParts(attrs[..|attrs| - 1]) + (if Listed(last) then [AttributeLine(last)] else [])
  }

  /** The parts of the popup, in order: name, description, then the generic attributes. */
  function Parts(r: Row): seq<string>
  {
    LabelledPart(r.attrs, NameColumn, NameLabel) + LabelledPart(r.attrs, DescriptionColumn, DescriptionLabel)
      + AttributeParts(r.attrs)
  }

  /** `_popup_html(row)` as a function of the row. */
  function Popup(r: Row): string
  {
    if Parts(r) == [] then NoAttributes else Join(Separator, Parts(r))
  }

  lemma AttributePartsPrefix(attrs: Dict<Value>, i: int)
    requires 0 <= i < |attrs|
    ensures AttributeParts(attrs[..i + 1]) ==
      AttributeParts(attrs[..i]) + (if Listed(attrs[i]) then [AttributeLine(attrs[i])] else [])
  {
    assert attrs[..i + 1][..i] == attrs[..i];
  }

  /** `_popup_html` (src/mapping.py:8-20). */
  method PopupHtml(r: Row) returns (html: string)
    ensures html == Popup(r)
  {
    var parts: seq<string> := [];
    var name := Get(r.attrs, NameColumn);
    if name.Some? && Truthy(name.value) {
      parts := parts + [NameLabel + Str(name.value)];
    }
    var description := Get(r.attrs, DescriptionColumn);
    if description.Some? && Truthy(description.value) {
      parts := parts + [DescriptionLabel + Str(description.value)];
    }
    ghost var head := parts;
    assert head == LabelledPart(r.attrs, NameColumn, NameLabel) + LabelledPart(r.attrs, DescriptionColumn, DescriptionLabel);
    for i := 0 to |r.attrs|
      invariant parts == head + AttributeParts(r.attrs[..i])
    {
      var (k, v) := r.attrs[i];
      AttributePartsPrefix(r.attrs, i);
      if Reserved(k) {
        continue;
      }
      if v != Null && v != Text("") {
        parts := parts + [AttributeLine((k, v))];
      }
    }
    assert r.attrs[..|r.attrs|] == r.attrs;
    if parts == [] {
      html := NoAttributes;
    } else {
      html := Join(Separator, parts);
    }
  }

  /** The generic parts are the lines of the listed columns, in column order. */
  lemma {:induction false} AttributePartsAreListed(attrs: Dict<Value>)
    ensures AttributeParts(attrs) == Map(Filter(attrs, Listed), AttributeLine)
  {
    if attrs != [] {
      var init, last := attrs[..|attrs| - 1], attrs[|attrs| - 1];
      AttributePartsAreListed(init);
      assert attrs == init + [last];
      FilterAppend(init, [last], Listed);
      MapAppend(Filter(init, Listed), Filter([last], Listed), AttributeLine);
    }
  }

  /** A column is listed as a generic attribute exactly when it is not reserved and its
      value is neither `None` nor `""`: reserved columns never are, and a `0` is. */
  lemma ListedColumns(attrs: Dict<Value>, p: (string, Value))
    ensures p in Filter(attrs, Listed) <==> p in attrs && !Reserved(p.0) && p.1 != Null && p.1 != Text("")
    ensures p in attrs && p.1 == Int(0) && !Reserved(p.0) ==> AttributeLine(p) in AttributeParts(attrs)
  {
    AttributePartsAreListed(attrs);
    if p in attrs && p.1 == Int(0) && !Reserved(p.0) {
      var ps := Filter(attrs, Listed);
      var i :| 0 <= i < |ps| && ps[i] == p;
      assert Map(ps, AttributeLine)[i] == AttributeLine(p);
    }
  }

  /** The popup is never empty. With parts, it is the parts with one separator between
      each two, so it begins with the name part when the name is truthy, and is
      `"<i>Sem atributos</i>"` otherwise. */
  lemma PopupShape(r: Row)
    ensures |Popup(r)| > 0
    ensures Parts(r) != [] ==> |Popup(r)| == SumLengths(Parts(r)) + (|Parts(r)| - 1) * |Separator|
    ensures Parts(r) == [] ==> Popup(r) == NoAttributes
    ensures Parts(r) != [] ==> Popup(r)[..|Parts(r)[0]|] == Parts(r)[0]
  {
    if Parts(r) != [] {
      JoinLength(Separator, Parts(r));
      JoinStartsWithFirst(Separator, Parts(r));
      if Popup(r) == [] {
        assert |Parts(r)[0]| == 0;
        PartsNonEmpty(r);
      }
    }
  }

  /** Every part holds at least its label. */
  lemma PartsNonEmpty(r: Row)
    ensures forall s :: s in Parts(r) ==> |s| > 0
  {
    AttributePartsAreListed(r.attrs);
  }

  /** The name part comes first whenever the name is truthy, then the description part. */
  lemma NameFirst(r: Row)
    ensures Get(r.attrs, NameColumn).Some? && Truthy(Get(r.attrs, NameColumn).value) ==>
      Parts(r)[0] == NameLabel + Str(Get(r.attrs, NameColumn).value)
    ensures Get(r.attrs, DescriptionColumn).Some? && Truthy(Get(r.attrs, DescriptionColumn).value) ==>
      Parts(r)[|LabelledPart(r.attrs, NameColumn, NameLabel)|] == DescriptionLabel + Str(Get(r.attrs, DescriptionColumn).value)
  {
  }
}
