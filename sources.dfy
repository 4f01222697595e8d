/** The "how did you hear about us" options (src/constants/sources.ts). */
module Sources {
  import opened Types

  const SourceTable: seq<Source> := [
    Choice("1", "Website", "website"),
    Choice("2", "Social Media", "social_media"),
    Choice("3", "Referral", "referral"),
    Choice("4", "Advertisement", "advertisement"),
    Choice("5", "Walk-in", "walk_in"),
    Choice("6", "Phone Call", "phone_call"),
    Choice("7", "Other", "other")
  ]

  predicate IsSourceValue(v: string)
  {
    exists i :: 0 <= i < |SourceTable| && SourceTable[i].value == v
  }

  /** Seven entries, with ids "1" to "7" in table order. */
  lemma SourceTableShape()
    ensures |SourceTable| == 7
    ensures forall i :: 0 <= i < |SourceTable| ==> SourceTable[i].id == [('1' as int + i) as char]
  {
  }

  /** Values are pairwise distinct, and so are labels. */
  lemma SourceEntriesDistinct()
    ensures forall i, j :: 0 <= i < j < |SourceTable| ==> SourceTable[i].value != SourceTable[j].value
    ensures forall i, j :: 0 <= i < j < |SourceTable| ==> SourceTable[i].caption != SourceTable[j].caption
  {
  }
}
