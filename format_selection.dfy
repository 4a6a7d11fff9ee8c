/**
 * Choosing the stream: the first format, in list order, whose identifier
 * converted with `str()` equals the preferred identifier "18".
 */
module FormatSelection {
  import opened Wrappers
  import opened PythonValues
  import opened Extraction
  import opened Responses

  /** `str(fmt.get('format_id')) == format_selector` */
  predicate IsTarget(f: Format)
  {
    Str(f.formatId.Get()) == PREFERRED_FORMAT
  }

  /** Which formats are targets, without going through `str()`. */
  lemma TargetIdentifiers(f: Format)
    ensures IsTarget(f) <==> f.formatId == Present(Text("18")) || f.formatId == Present(Integer(18))
  {
    StrIsEighteen(f.formatId.Get());
  }

  /** The position of the first target, if any. */
  function FirstTargetIndex(fs: seq<Format>): (r: Option<nat>)
    ensures r.Some? ==> r.value < |fs| && IsTarget(fs[r.value])
    ensures r.Some? ==> forall j :: 0 <= j < r.value ==> !IsTarget(fs[j])
    ensures r.None? ==> forall j :: 0 <= j < |fs| ==> !IsTarget(fs[j])
  {
    if fs == [] then None
    else if IsTarget(fs[0]) then Some(0)
    else
      match FirstTargetIndex(fs[1..])
      case None => None
      case Some(k) => Some(k + 1)
  }

  /** The format the selection loop settles on. */
  function FirstTarget(fs: seq<Format>): (r: Option<Format>)
  {
    match FirstTargetIndex(fs)
    case None => None
    case Some(k) => Some(fs[k])
  }

  /**
   * The selection is the first target, in list order: it is a target, no
   * earlier format is one, and there is none exactly when no format is one.
   */
  lemma FirstTargetIsFirst(fs: seq<Format>, i: nat)
    requires i < |fs| && IsTarget(fs[i])
    requires forall j :: 0 <= j < i ==> !IsTarget(fs[j])
    ensures FirstTarget(fs) == Some(fs[i])
  {
  }

  /** A format appended after the first target never changes the choice. */
  lemma {:induction false} LaterFormatsIgnored(fs: seq<Format>, more: seq<Format>)
    requires FirstTarget(fs).Some?
    ensures FirstTarget(fs + more) == FirstTarget(fs)
  {
    var k := FirstTargetIndex(fs).value;
    assert (fs + more)[k] == fs[k];
    forall j | 0 <= j < k ensures !IsTarget((fs + more)[j]) {
      assert (fs + more)[j] == fs[j];
    }
    FirstTargetIsFirst(fs + more, k);
  }

  /** Formats without a target in front of a list leave its choice unchanged. */
  lemma {:induction false} LeadingNonTargetsSkipped(fs: seq<Format>, more: seq<Format>)
    requires FirstTarget(fs).None?
    ensures FirstTarget(fs + more) == FirstTarget(more)
  {
    match FirstTargetIndex(more)
    case None =>
      forall j | 0 <= j < |fs + more| ensures !IsTarget((fs + more)[j]) {
        if j < |fs| { assert (fs + more)[j] == fs[j]; }
        else { assert (fs + more)[j] == more[j - |fs|]; }
      }
    case Some(k) =>
      assert (fs + more)[|fs| + k] == more[k];
      forall j | 0 <= j < |fs| + k ensures !IsTarget((fs + more)[j]) {
        if j < |fs| { assert (fs + more)[j] == fs[j]; }
        else { assert (fs + more)[j] == more[j - |fs|]; }
      }
      FirstTargetIsFirst(fs + more, |fs| + k);
  }
}
