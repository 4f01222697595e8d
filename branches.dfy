/** The office branches offered at login (src/constants/branches.ts). */
module Branches {
  import opened Types

  const BranchTable: seq<Branch> := [
    Branch("1", "Main Office", Some("123 Main Street, City")),
    Branch("2", "Branch A", Some("456 Oak Avenue, City")),
    Branch("3", "Branch B", Some("789 Pine Road, City")),
    Branch("4", "Branch C", Some("321 Elm Street, City"))
  ]

  predicate IsBranchName(name: string)
  {
    exists i :: 0 <= i < |BranchTable| && BranchTable[i].name == name
  }

  /**
   * Four entries whose names are non-empty and pairwise distinct: the login
   * dropdown uses the name as the selected value, so each choice is unambiguous.
   */
  lemma BranchTableShape()
    ensures |BranchTable| == 4
    ensures forall i :: 0 <= i < |BranchTable| ==> |BranchTable[i].name| >= 1
    ensures forall i, j :: 0 <= i < j < |BranchTable| ==> BranchTable[i].name != BranchTable[j].name
  {
  }
}
