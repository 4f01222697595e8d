/** The purpose-of-visit options offered on the visitor form (src/constants/visitPurposes.ts). */
module VisitPurposes {
  import opened Types
  import Text

  const VisitPurposeTable: seq<VisitPurpose> := [
    Choice("1", "Meeting", "meeting"),
    Choice("2", "Interview", "interview"),
    Choice("3", "Delivery", "delivery"),
    Choice("4", "Maintenance", "maintenance"),
    Choice("5", "Consultation", "consultation"),
    Choice("6", "Training", "training"),
    Choice("7", "Other", "other")
  ]

  predicate IsPurposeValue(v: string)
  {
    exists i :: 0 <= i < |VisitPurposeTable| && VisitPurposeTable[i].value == v
  }

  /** Seven entries, with ids "1" to "7" in table order. */
  lemma PurposeTableShape()
    ensures |VisitPurposeTable| == 7
    ensures forall i :: 0 <= i < |VisitPurposeTable| ==> VisitPurposeTable[i].id == [('1' as int + i) as char]
  {
  }

  /** No two entries share a value, so looking a value up finds at most one label. */
  lemma PurposeValuesDistinct()
    ensures forall i, j :: 0 <= i < j < |VisitPurposeTable| ==> VisitPurposeTable[i].value != VisitPurposeTable[j].value
  {
  }

  /** Every value is its label, lower-cased. */
  lemma PurposeValueIsLowerLabel()
    ensures forall i :: 0 <= i < |VisitPurposeTable| ==> VisitPurposeTable[i].value == Text.Lower(VisitPurposeTable[i].caption)
  {
  }
}
