/**
 * The label helpers of the web client (web/src/utils/labelUtils.ts): reading the
 * comma-separated label field into a list and writing a list back.
 */
module LabelUtils {
  import opened Wrappers
  import opened Strs

  /**
   * `parseLabels`: nothing (null, undefined or the empty string) gives no labels;
   * otherwise the comma pieces, trimmed, with the empty ones dropped. Duplicates are kept.
   */
  function ParseLabels(labels: Option<string>): (r: seq<string>)
    ensures labels == None || labels.value == [] ==> r == []
    ensures forall i :: 0 <= i < |r| ==> r[i] != [] && Stripped(r[i], JsSpace) && ',' !in r[i]
  {
    if labels == None || labels.value == [] then []
    else
      var parts := Split(labels.value, ',');
      var trimmed := StripAll(parts, JsSpace);
      TrimmedPieces(parts, trimmed);
      NonEmpty(trimmed)
  }

  lemma TrimmedPieces(parts: seq<string>, trimmed: seq<string>)
    requires forall i :: 0 <= i < |parts| ==> ',' !in parts[i]
    requires trimmed == StripAll(parts, JsSpace)
    ensures forall i :: 0 <= i < |trimmed| ==> Stripped(trimmed[i], JsSpace) && ',' !in trimmed[i]
  {
    forall i | 0 <= i < |trimmed|
      ensures Stripped(trimmed[i], JsSpace) && ',' !in trimmed[i]
    {
      assert trimmed[i] == Strip(parts[i], JsSpace);
      assert ',' !in parts[i];
    }
  }

  /** `stringifyLabels`: the labels that are not blank, unchanged, joined by ",". */
  function StringifyLabels(labels: seq<string>): (r: string)
    ensures KeepNonBlank(labels, JsSpace) == [] ==> r == []
  {
    Join(KeepNonBlank(labels, JsSpace), ",")
  }

  /** The empty string needs no special case: its one piece is empty and is dropped. */
  lemma ParseLabelsSome(s: string)
    ensures ParseLabels(Some(s)) == NonEmpty(StripAll(Split(s, ','), JsSpace))
  {
    if s == [] {
      assert Split(s, ',') == [[]];
      assert StripAll([[]], JsSpace) == [[]];
    }
  }

  /**
   * Writing a list of comma-free labels and reading it back gives the trimmed
   * non-blank labels, in order: exactly what parsing the list piecewise would give.
   */
  lemma ParseStringify(labels: seq<string>)
    requires forall i :: 0 <= i < |labels| ==> ',' !in labels[i]
    ensures ParseLabels(Some(StringifyLabels(labels))) == StripAll(KeepNonBlank(labels, JsSpace), JsSpace)
    ensures ParseLabels(Some(StringifyLabels(labels))) == NonEmpty(StripAll(labels, JsSpace))
  {
    var kept := KeepNonBlank(labels, JsSpace);
    NonEmptyStripAll(labels, JsSpace);
    ParseLabelsSome(StringifyLabels(labels));
    if kept != [] {
      forall i | 0 <= i < |kept| ensures ',' !in kept[i] {
        assert kept[i] in labels;
      }
      SplitJoin(kept, ',');
      var trimmed := StripAll(kept, JsSpace);
      NonEmptyId(trimmed);
    }
  }

  /** Labels that came out of `parseLabels` survive a write and a re-read unchanged. */
  lemma ParseStringifyParse(s: Option<string>)
    ensures ParseLabels(Some(StringifyLabels(ParseLabels(s)))) == ParseLabels(s)
    ensures StringifyLabels(ParseLabels(s)) == Join(ParseLabels(s), ",")
  {
    var ls := ParseLabels(s);
    forall i | 0 <= i < |ls| ensures Strip(ls[i], JsSpace) != [] {
      StripStripped(ls[i], JsSpace);
    }
    KeepNonBlankId(ls, JsSpace);
    ParseStringify(ls);
    StripAllId(ls, JsSpace);
  }
}
