/** `PodBuilder::Command::GenerateLFS.filter_files_by_size`: the files whose
    size in whole kibibytes exceeds the configured `lfs_min_file_size`, in
    their original order. File.size is read by the caller and given here
    with each path; the configured minimum is a parameter. */
module SizeFilter {
  /** A file together with its size in bytes. */
  datatype SizedFile = SizedFile(path: string, size: nat)

  /** The test of the `select` block: the size in bytes, divided by 1024
      with the remainder dropped, is greater than the minimum. */
  predicate LargeEnough(f: SizedFile, minFileSize: int) {
    f.size / 1024 > minFileSize
  }

  /** The filter. `sizeKb` is accepted and, as in the Ruby method, not used. */
  function FilterFilesBySize(files: seq<SizedFile>, sizeKb: int, minFileSize: int): (kept: seq<SizedFile>)
    ensures |kept| <= |files|
    ensures forall i :: 0 <= i < |kept| ==> LargeEnough(kept[i], minFileSize)
    decreases |files|
  {
    if files == [] then []
    else
      var rest := FilterFilesBySize(files[1..], sizeKb, minFileSize);
      if LargeEnough(files[0], minFileSize) then [files[0]] + rest else rest
  }

  /** A file is kept exactly when it is one of the inputs and large enough. */
  lemma {:induction false} FilterMembership(files: seq<SizedFile>, sizeKb: int, minFileSize: int, f: SizedFile)
    ensures f in FilterFilesBySize(files, sizeKb, minFileSize) <==> f in files && LargeEnough(f, minFileSize)
    decreases |files|
  {
    if files != [] {
      FilterMembership(files[1..], sizeKb, minFileSize, f);
      assert f in files <==> f == files[0] || f in files[1..];
    }
  }

  /** Filtering a concatenation filters each part and keeps their order. */
  lemma {:induction false} FilterAppend(a: seq<SizedFile>, b: seq<SizedFile>, sizeKb: int, minFileSize: int)
    ensures FilterFilesBySize(a + b, sizeKb, minFileSize)
         == FilterFilesBySize(a, sizeKb, minFileSize) + FilterFilesBySize(b, sizeKb, minFileSize)
    decreases |a|
  {
    if a != [] {
      assert (a + b)[0] == a[0];
      assert (a + b)[1..] == a[1..] + b;
      FilterAppend(a[1..], b, sizeKb, minFileSize);
    } else {
      assert a + b == b;
    }
  }

  /** The result does not depend on `sizeKb`. */
  lemma {:induction false} FilterIgnoresSizeKb(files: seq<SizedFile>, k1: int, k2: int, minFileSize: int)
    ensures FilterFilesBySize(files, k1, minFileSize) == FilterFilesBySize(files, k2, minFileSize)
    decreases |files|
  {
    if files != [] {
      FilterIgnoresSizeKb(files[1..], k1, k2, minFileSize);
    }
  }

  /** The input comes back unchanged exactly when every file is large enough. */
  lemma {:induction false} FilterKeepsAllIff(files: seq<SizedFile>, sizeKb: int, minFileSize: int)
    ensures FilterFilesBySize(files, sizeKb, minFileSize) == files
        <==> forall i :: 0 <= i < |files| ==> LargeEnough(files[i], minFileSize)
    decreases |files|
  {
    if files != [] {
      var rest := FilterFilesBySize(files[1..], sizeKb, minFileSize);
      FilterKeepsAllIff(files[1..], sizeKb, minFileSize);
      if !LargeEnough(files[0], minFileSize) {
        assert |rest| <= |files[1..]| < |files|;
      } else if rest == files[1..] {
        assert files == [files[0]] + files[1..];
      } else {
        assert [files[0]] + rest != files by {
          assert ([files[0]] + rest)[1..] == rest;
        }
        var i :| 0 <= i < |files[1..]| && !LargeEnough(files[1..][i], minFileSize);
        assert files[i + 1] == files[1..][i];
      }
    }
  }

  /** Filtering twice is filtering once. */
  lemma FilterIdempotent(files: seq<SizedFile>, sizeKb: int, minFileSize: int)
    ensures var once := FilterFilesBySize(files, sizeKb, minFileSize);
      FilterFilesBySize(once, sizeKb, minFileSize) == once
  {
    var once := FilterFilesBySize(files, sizeKb, minFileSize);
    FilterKeepsAllIff(once, sizeKb, minFileSize);
  }

  /** In bytes: a file is large enough exactly when it holds at least
      1024 * (minFileSize + 1) bytes; with a negative minimum every file is. */
  lemma LargeEnoughInBytes(f: SizedFile, minFileSize: int)
    ensures LargeEnough(f, minFileSize) <==> f.size >= 1024 * (minFileSize + 1)
  {
    var q := f.size / 1024;
    assert f.size == 1024 * q + f.size % 1024;
    if q > minFileSize {
      assert q >= minFileSize + 1;
      assert 1024 * q >= 1024 * (minFileSize + 1);
    } else {
      assert 1024 * q <= 1024 * minFileSize;
    }
  }
}
