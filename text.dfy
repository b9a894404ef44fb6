/** String matching as the pipeline uses it: Python's `in` and SQL's `LIKE '%…%'`. */
module Text {

  /** `sub` occurs in `s` starting at index i. */
  ghost predicate OccursAt(s: string, sub: string, i: int) {
    0 <= i <= |s| - |sub| && s[i..i + |sub|] == sub
  }

  /** `sub in s` (Python) or `s LIKE '%sub%'` (SQL). */
  predicate Contains(s: string, sub: string) {
    sub <= s || (|s| > 0 && Contains(s[1..], sub))
  }

  /** Contains finds exactly the substrings that occur somewhere in s. */
  lemma {:induction false} ContainsIffOccurs(s: string, sub: string)
    ensures Contains(s, sub) <==> exists i :: OccursAt(s, sub, i)
  {
    if sub <= s {
      assert OccursAt(s, sub, 0);
    } else if |s| == 0 {
    } else {
      ContainsIffOccurs(s[1..], sub);
      if Contains(s[1..], sub) {
        var j :| OccursAt(s[1..], sub, j);
        assert s[1..][j..j + |sub|] == s[j + 1..j + 1 + |sub|];
        assert OccursAt(s, sub, j + 1);
      }
      if exists i :: OccursAt(s, sub, i) {
        var i :| OccursAt(s, sub, i);
        if i != 0 {
          assert s[1..][i - 1..i - 1 + |sub|] == s[i..i + |sub|];
          assert OccursAt(s[1..], sub, i - 1);
        }
      }
    }
  }

  /**
   * `path.split("/")[-1]`: the text after the last slash, or the whole
   * string when it holds no slash.
   */
  function FileName(path: string): string {
    if path == [] then []
    else if path[|path| - 1] == '/' then []
    else FileName(path[..|path| - 1]) + [path[|path| - 1]]
  }

  /**
   * FileName is a suffix of the path that holds no slash and is either the
   * whole path or preceded by a slash.
   */
  lemma {:induction false} FileNameIsLastSegment(path: string)
    ensures var name := FileName(path);
      |name| <= |path| && name == path[|path| - |name|..]
      && '/' !in name
      && (|name| < |path| ==> path[|path| - |name| - 1] == '/')
  {
    if path != [] && path[|path| - 1] != '/' {
      var init := path[..|path| - 1];
      FileNameIsLastSegment(init);
      var name' := FileName(init);
      assert FileName(path) == name' + [path[|path| - 1]];
      assert path[|path| - |name'| - 1..] == init[|init| - |name'|..] + [path[|path| - 1]];
    }
  }

  /** The last segment of dir + "/" + name is name, whatever dir is. */
  lemma {:induction false} FileNameAfterSlash(dir: string, name: string)
    requires '/' !in name
    ensures FileName(dir + "/" + name) == name
  {
    if name == [] {
    } else {
      var init := name[..|name| - 1];
      assert '/' !in init by {
        forall c | c in init ensures c != '/' {
          assert c in name;
        }
      }
      FileNameAfterSlash(dir, init);
      assert (dir + "/" + name)[..|dir + "/" + name| - 1] == dir + "/" + init;
    }
  }
}
