/**
  The tag list shared by the search and upload forms: a text input and the
  tags entered so far, in entry order. Adding trims the input and refuses
  blank or repeated tags; removing filters every equal tag out.
 */
module Tags {
  import opened Text

  /** The tag input box and the list of tags shown under it. */
  datatype Editor = Editor(tags: seq<string>, input: string)

  /** Every tag is non-blank and trimmed, and no tag occurs twice. */
  predicate WellFormed(tags: seq<string>)
  {
    && (forall i :: 0 <= i < |tags| ==> tags[i] != "" && IsTrimmed(tags[i]))
    && (forall i, j :: 0 <= i < j < |tags| ==> tags[i] != tags[j])
  }

  /** `handleAddTag`: the trimmed input is appended and the box cleared when
      it is non-empty and new; otherwise nothing changes, not even the box. */
  function AddTag(e: Editor): (r: Editor)
    ensures r != e <==> Trim(e.input) != "" && Trim(e.input) !in e.tags
    ensures r != e ==> r.tags == e.tags + [Trim(e.input)] && r.input == ""
    ensures WellFormed(e.tags) ==> WellFormed(r.tags)
  {
    var t := Trim(e.input);
    if t != "" && t !in e.tags then
      AppendKeepsWellFormed(e.tags, t);
      Editor(e.tags + [t], "")
    else e
  }

  lemma AppendKeepsWellFormed(tags: seq<string>, t: string)
    requires t != "" && IsTrimmed(t) && t !in tags
    ensures WellFormed(tags) ==> WellFormed(tags + [t])
  {
    var u := tags + [t];
    if WellFormed(tags) {
      forall i, j | 0 <= i < j < |u|
        ensures u[i] != u[j]
      {
        if j == |tags| {
          assert u[i] == tags[i];
        }
      }
    }
  }

  /** `handleRemoveTag`: `tags.filter(tag => tag !== t)`. */
  function RemoveTag(tags: seq<string>, t: string): (r: seq<string>)
    ensures t !in r
    ensures forall x :: x in r ==> x in tags
    ensures forall x :: x != t ==> multiset(r)[x] == multiset(tags)[x]
    ensures t !in tags ==> r == tags
  {
    if tags == [] then []
    else
      assert tags == [tags[0]] + tags[1..];
      (if tags[0] == t then [] else [tags[0]]) + RemoveTag(tags[1..], t)
  }

  /** The tags as the wire carries them: `{ tag_name }` records. */
  datatype WireTag = WireTag(tagName: string)

  /** `tags.map(tag => ({ tag_name: tag }))`. */
  function ToWire(tags: seq<string>): (r: seq<WireTag>)
    ensures |r| == |tags|
    ensures forall i :: 0 <= i < |r| ==> r[i].tagName == tags[i]
  {
    seq(|tags|, i requires 0 <= i < |tags| => WireTag(tags[i]))
  }

  function FromWire(wire: seq<WireTag>): seq<string>
  {
    seq(|wire|, i requires 0 <= i < |wire| => wire[i].tagName)
  }

  /** The wire form loses nothing: the tag names read back in order. */
  lemma FromWireToWire(tags: seq<string>)
    ensures FromWire(ToWire(tags)) == tags
  {
  }

  /** Filtering works piecewise on a concatenation, so the tags that stay
      keep their relative order. */
  lemma {:induction false} RemoveTagConcat(a: seq<string>, b: seq<string>, t: string)
    ensures RemoveTag(a + b, t) == RemoveTag(a, t) + RemoveTag(b, t)
  {
    if a == [] {
      assert a + b == b;
    } else {
      assert (a + b)[0] == a[0];
      assert (a + b)[1..] == a[1..] + b;
      RemoveTagConcat(a[1..], b, t);
    }
  }

  /** Removing keeps the list well-formed. */
  lemma {:induction false} RemoveTagKeepsWellFormed(tags: seq<string>, t: string)
    ensures WellFormed(tags) ==> WellFormed(RemoveTag(tags, t))
  {
    if tags != [] && WellFormed(tags) {
      var rest := RemoveTag(tags[1..], t);
      assert WellFormed(tags[1..]);
      RemoveTagKeepsWellFormed(tags[1..], t);
      if tags[0] != t {
        assert tags[0] !in tags[1..];
        ConsKeepsWellFormed(tags[0], rest);
      }
    }
  }

  lemma ConsKeepsWellFormed(h: string, rest: seq<string>)
    requires h != "" && IsTrimmed(h) && h !in rest && WellFormed(rest)
    ensures WellFormed([h] + rest)
  {
    var u := [h] + rest;
    forall i, j | 0 <= i < j < |u|
      ensures u[i] != u[j]
    {
      if i == 0 {
        assert u[j] == rest[j - 1];
      } else {
        assert u[i] == rest[i - 1] && u[j] == rest[j - 1];
      }
    }
  }

  /** Adding a new tag and then removing it gives back the original list. */
  lemma AddThenRemove(e: Editor)
    requires Trim(e.input) != "" && Trim(e.input) !in e.tags
    ensures RemoveTag(AddTag(e).tags, Trim(e.input)) == e.tags
  {
    var t := Trim(e.input);
    RemoveTagConcat(e.tags, [t], t);
    assert RemoveTag([t], t) == [];
  }

  /** Adding twice is adding once: pressing Enter again finds an empty box,
      and typing the same text again finds the tag already present. */
  lemma AddIdempotent(e: Editor)
    ensures AddTag(AddTag(e)) == AddTag(e)
    ensures AddTag(Editor(AddTag(e).tags, e.input)).tags == AddTag(e).tags
  {
    if AddTag(e) != e {
      assert AddTag(e).input == "";
      assert Trim("") == "";
    }
  }
}
