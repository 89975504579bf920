/**
  The two-level document classification: a category (major head) and a
  sub-category (minor head) drawn from the list the category offers.
  The search and upload forms share this logic.
 */
module Taxonomy {

  const Personal: string := "Personal"

  const PersonalNames: seq<string> := ["John", "Tom", "Emily", "Sarah", "Michael", "Jessica"]
  const Departments: seq<string> := ["Accounts", "HR", "IT", "Finance", "Marketing", "Sales"]

  /** `minorHeadOptions`: the names for "Personal"; for any other value —
      "Professional", and also the empty "nothing chosen yet" — the departments. */
  function MinorHeadOptions(major: string): (r: seq<string>)
    ensures major == Personal ==> r == PersonalNames
    ensures major != Personal ==> r == Departments
  {
    if major == Personal then PersonalNames else Departments
  }

  /** The two option lists: six entries each, none blank, none repeated, and
      no entry shared between them. */
  lemma OptionListsShape()
    ensures |PersonalNames| == 6 && |Departments| == 6
    ensures forall i, j :: 0 <= i < j < 6 ==> PersonalNames[i] != PersonalNames[j] && Departments[i] != Departments[j]
    ensures "" !in PersonalNames && "" !in Departments
    ensures forall x :: x in PersonalNames ==> x !in Departments
  {
  }

  /** The classification fields of a form. */
  datatype Heads = Heads(major: string, minor: string)

  /** No sub-category yet, or one the current category offers. */
  predicate Consistent(h: Heads)
  {
    h.minor == "" || h.minor in MinorHeadOptions(h.major)
  }

  /** The category select's `onValueChange`: set the category, clear the sub-category. */
  function ChangeCategory(h: Heads, value: string): (r: Heads)
    ensures r.major == value && r.minor == ""
    ensures Consistent(r)
  {
    Heads(value, "")
  }

  /** The sub-category select's `onValueChange`. The select is only rendered
      once a category is chosen and only lists the category's options, so
      these are the only values it can deliver. */
  function PickSubCategory(h: Heads, value: string): (r: Heads)
    requires h.major != "" && value in MinorHeadOptions(h.major)
    ensures r.major == h.major && r.minor == value
    ensures Consistent(r)
  {
    h.(minor := value)
  }

  /** A chosen sub-category pins down which list it came from: a Personal
      form never holds a department, and any other category never holds a name. */
  lemma NoCrossCategorySubCategory(h: Heads)
    requires Consistent(h)
    ensures h.major == Personal ==> h.minor !in Departments
    ensures h.major != Personal ==> h.minor !in PersonalNames
  {
    OptionListsShape();
  }
}
