/** The multi-file picker of
    `src/components/dashboard/hotels/file-uploader-multiple.tsx`: the list of
    staged files (each with the preview URL the browser created for it)
    and the three handlers that replace it. */
module FileUploader {
  import opened Common
  import opened Records

  /** A chosen file with its object URL. */
  datatype StagedFile = StagedFile(file: File, preview: string)

  /** The staged list a drop produces: the accepted files in order, the
      `k`-th paired with the `k`-th object URL created. */
  function Staged(accepted: seq<File>, previews: seq<string>): (r: seq<StagedFile>)
    requires |previews| == |accepted|
    ensures |r| == |accepted|
    ensures forall k :: 0 <= k < |r| ==> r[k].file == accepted[k] && r[k].preview == previews[k]
  {
    seq(|accepted|, k requires 0 <= k < |accepted| => StagedFile(accepted[k], previews[k]))
  }

  /** `files.filter((i) => i.name !== name)` */
  function WithoutName(files: seq<StagedFile>, name: string): (r: seq<StagedFile>)
    ensures |r| <= |files|
  {
    if files == [] then []
    else
      var rest := WithoutName(files[1..], name);
      if files[0].file.name == name then rest else [files[0]] + rest
  }

  /** The kept files are exactly the staged files with another name. */
  lemma {:induction false} WithoutNameMembers(files: seq<StagedFile>, name: string)
    ensures forall f :: f in WithoutName(files, name) <==> f in files && f.file.name != name
  {
    if files != [] {
      WithoutNameMembers(files[1..], name);
      assert files == [files[0]] + files[1..];
    }
  }

  /** Filtering commutes with concatenation, so the kept files stay in
      their relative order. */
  lemma {:induction false} WithoutNameAppend(a: seq<StagedFile>, b: seq<StagedFile>, name: string)
    ensures WithoutName(a + b, name) == WithoutName(a, name) + WithoutName(b, name)
  {
    if a == [] {
      assert a + b == b;
    } else {
      assert (a + b)[1..] == a[1..] + b;
      WithoutNameAppend(a[1..], b, name);
    }
  }

  /** Removing a name no staged file has leaves the list as it was. */
  lemma {:induction false} WithoutAbsentName(files: seq<StagedFile>, name: string)
    requires forall k :: 0 <= k < |files| ==> files[k].file.name != name
    ensures WithoutName(files, name) == files
  {
    if files != [] {
      WithoutAbsentName(files[1..], name);
    }
  }

  /** Removing the same name twice is removing it once. */
  lemma WithoutNameIdempotent(files: seq<StagedFile>, name: string)
    ensures WithoutName(WithoutName(files, name), name) == WithoutName(files, name)
  {
    var once := WithoutName(files, name);
    WithoutNameMembers(files, name);
    forall k | 0 <= k < |once|
      ensures once[k].file.name != name
    {
      assert once[k] in once;
    }
    WithoutAbsentName(once, name);
  }

  /** Whether a staged file is shown as an image rather than an icon:
      its MIME type starts with `image`. */
  predicate ShowsImagePreview(f: StagedFile): (b: bool)
    ensures b ==> |f.file.mimeType| >= 5 && f.file.mimeType[0] == 'i'
    ensures |f.file.mimeType| >= 6 && f.file.mimeType[..6] == "image/" ==> b
  {
    assert "image/"[..5] == "image";
    StartsWith(f.file.mimeType, "image")
  }

  /** Every `image/…` type gets a preview, and so does any other type
      that merely starts with the five letters; a type that does not start
      with `i` never does. */
  lemma {:induction false} ImagePreviewCases(f: StagedFile, subtype: string)
    ensures f.file.mimeType == "image/" + subtype ==> ShowsImagePreview(f)
    ensures |f.file.mimeType| < 5 || f.file.mimeType[0] != 'i' ==> !ShowsImagePreview(f)
  {
    if f.file.mimeType == "image/" + subtype {
      assert f.file.mimeType[..5] == "image";
    }
    if |f.file.mimeType| >= 5 && f.file.mimeType[0] != 'i' {
      assert f.file.mimeType[..5][0] != "image"[0];
    }
  }

  class Uploader {
    var files: seq<StagedFile>

    /** The first render: nothing staged. */
    constructor ()
      ensures files == []
    {
      files := [];
    }

    /** `onDrop(acceptedFiles)`: the staged list becomes exactly the
        accepted files, whatever was staged before. */
    method OnDrop(accepted: seq<File>, previews: seq<string>)
      requires |previews| == |accepted|
      modifies this
      ensures files == Staged(accepted, previews)
    {
      files := Staged(accepted, previews);
    }

    /** `handleRemoveFile(file)`: every staged file with that name goes. */
    method HandleRemoveFile(file: StagedFile)
      modifies this
      ensures files == WithoutName(old(files), file.file.name)
      ensures forall f :: f in files <==> f in old(files) && f.file.name != file.file.name
    {
      WithoutNameMembers(files, file.file.name);
      files := WithoutName(files, file.file.name);
    }

    /** `handleRemoveAllFiles()` */
    method HandleRemoveAllFiles()
      modifies this
      ensures files == []
    {
      files := [];
    }

    /** `files.length ?`: whether the list, rather than the placeholder,
        is shown. */
    function ShowsList(): (b: bool)
      reads this
      ensures b <==> files != []
    {
      |files| != 0
    }
  }

  /** When exactly the `k`-th staged file has the name, removing the name
      leaves the list with just that file taken out. */
  lemma {:induction false} WithoutOnlyHolder(files: seq<StagedFile>, k: nat, name: string)
    requires k < |files| && files[k].file.name == name
    requires forall j :: 0 <= j < |files| && j != k ==> files[j].file.name != name
    ensures WithoutName(files, name) == files[..k] + files[k + 1..]
  {
    var left, right := files[..k], files[k + 1..];
    assert files == left + [files[k]] + right;
    assert forall j :: 0 <= j < |left| ==> left[j].file.name != name by {
      forall j | 0 <= j < |left| ensures left[j].file.name != name {
        assert left[j] == files[j];
      }
    }
    assert forall j :: 0 <= j < |right| ==> right[j].file.name != name by {
      forall j | 0 <= j < |right| ensures right[j].file.name != name {
        assert right[j] == files[k + 1 + j];
      }
    }
    WithoutAbsentName(left, name);
    WithoutAbsentName(right, name);
    var single := [files[k]];
    assert WithoutName(single, name) == [] by {
      assert single[1..] == [];
    }
    assert files == (left + single) + right;
    WithoutNameAppend(left + single, right, name);
    WithoutNameAppend(left, single, name);
    calc {
      WithoutName(files, name);
      WithoutName(left + single, name) + WithoutName(right, name);
      (WithoutName(left, name) + WithoutName(single, name)) + WithoutName(right, name);
      (left + []) + right;
      { assert left + [] == left; }
      left + right;
    }
  }

  /** A drop then a removal by the name of one dropped file: the other
      dropped files remain, with their previews, in drop order. */
  lemma DropThenRemove(accepted: seq<File>, previews: seq<string>, k: nat)
    requires |previews| == |accepted| && k < |accepted|
    requires forall j :: 0 <= j < |accepted| && j != k ==> accepted[j].name != accepted[k].name
    ensures WithoutName(Staged(accepted, previews), accepted[k].name) ==
              Staged(accepted[..k] + accepted[k + 1..], previews[..k] + previews[k + 1..])
  {
    WithoutOnlyHolder(Staged(accepted, previews), k, accepted[k].name);
    StagedWithout(accepted, previews, k);
  }

  /** Staging all but the `k`-th file is leaving the `k`-th staged file out. */
  lemma StagedWithout(accepted: seq<File>, previews: seq<string>, k: nat)
    requires |previews| == |accepted| && k < |accepted|
    ensures var s := Staged(accepted, previews);
            Staged(accepted[..k] + accepted[k + 1..], previews[..k] + previews[k + 1..]) == s[..k] + s[k + 1..]
  {
  }
}
