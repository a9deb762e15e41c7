/**
 * Filling a Python dictionary from the label/value pairs of a detail page,
 * in document order: `fields[label] = value` for every label that has a
 * value element, so a later duplicate label overwrites an earlier one.
 */
module Fields {
  import opened Common

  /** One label of a parsed page and the text of its value element, if the page has one. */
  datatype Entry = Entry(key: string, value: Option<string>)

  /** The entry assigns `k`. */
  predicate Assigns(e: Entry, k: string) {
    e.key == k && e.value.Some?
  }

  /** The dictionary after the assignments of `es`, made in order. */
  function Fill(es: seq<Entry>): map<string, string> {
    if es == [] then map[]
    else
      var last := es[|es| - 1];
      var m := Fill(es[..|es| - 1]);
      match last.value
      case Some(v) => m[last.key := v]
      case None => m
  }

  /** An entry that does not assign `k` leaves `k` as it was. */
  lemma FillOtherKey(es: seq<Entry>, k: string)
    requires es != [] && !Assigns(es[|es| - 1], k)
    ensures k in Fill(es) <==> k in Fill(es[..|es| - 1])
    ensures k in Fill(es) ==> Fill(es)[k] == Fill(es[..|es| - 1])[k]
  {
  }

  /** A label is in the dictionary iff some entry assigns it. */
  lemma {:induction false} FilledIffAssigned(es: seq<Entry>, k: string)
    ensures k in Fill(es) <==> exists i :: 0 <= i < |es| && Assigns(es[i], k)
  {
    if es != [] {
      var n := |es| - 1;
      var init := es[..n];
      FilledIffAssigned(init, k);
      if !Assigns(es[n], k) {
        FillOtherKey(es, k);
        if k in Fill(es) {
          var i :| 0 <= i < |init| && Assigns(init[i], k);
          assert es[i] == init[i];
        } else {
          forall i | 0 <= i < |es| ensures !Assigns(es[i], k) {
            if i < n { assert es[i] == init[i]; }
          }
        }
      }
    }
  }

  /** The value of a label is the one given by the LAST entry that assigns it. */
  lemma {:induction false} LastAssignmentWins(es: seq<Entry>, k: string)
    requires k in Fill(es)
    ensures exists i ::
      && 0 <= i < |es|
      && es[i] == Entry(k, Some(Fill(es)[k]))
      && forall j :: i < j < |es| ==> !Assigns(es[j], k)
  {
    var n := |es| - 1;
    var init := es[..n];
    if Assigns(es[n], k) {
      assert es[n] == Entry(k, Some(Fill(es)[k]));
    } else {
      FillOtherKey(es, k);
      LastAssignmentWins(init, k);
      var i :| 0 <= i < |init| && init[i] == Entry(k, Some(Fill(init)[k]))
        && forall j :: i < j < |init| ==> !Assigns(init[j], k);
      assert es[i] == init[i];
      assert forall j :: i < j < |es| ==> !Assigns(es[j], k) by {
        forall j | i < j < |es| ensures !Assigns(es[j], k) {
          if j < n { assert es[j] == init[j]; }
        }
      }
    }
  }
}
