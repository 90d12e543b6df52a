/**
 * Merging template files into a project instead of overwriting them: which
 * files are merged, the deep merge of JSON objects, and the line merge of
 * `.gitignore` files. Reading and writing the files is left to the caller:
 * the operations take the decoded contents and return what is written.
 */
module TemplateMerge {
  import opened Wrappers
  import opened GoStrings
  import opened JsonValues

  datatype MergeType = MergeTypeJson | MergeTypeGitignore

  /** The files that are merged, by path relative to the project. */
  const MergeableFiles: map<string, MergeType> :=
    map[".vscode/settings.json" := MergeTypeJson, ".mcp.json" := MergeTypeJson, ".gitignore" := MergeTypeGitignore]

  /** ShouldMerge: the merge type of a mergeable file, or None. */
  function ShouldMerge(relativePath: string): (r: Option<MergeType>)
    ensures r == Some(MergeTypeJson) <==> relativePath == ".vscode/settings.json" || relativePath == ".mcp.json"
    ensures r == Some(MergeTypeGitignore) <==> relativePath == ".gitignore"
    ensures r.None? <==> relativePath !in MergeableFiles
  {
    if relativePath in MergeableFiles then Some(MergeableFiles[relativePath]) else None
  }

  // ------------------------------------------------------------ deepMerge

  /**
   * The deep merge of `template` into `existing`: a key of only one side keeps
   * that side's value; a key of both keeps the existing value, except that two
   * objects are merged in turn.
   */
  function Merged(existing: map<string, Json>, template: map<string, Json>): map<string, Json>
    decreases JObject(template)
  {
    map k | k in existing.Keys + template.Keys ::
      if k !in existing then template[k]
      else if k in template && existing[k].JObject? && template[k].JObject? then
        JObject(Merged(existing[k].fields, template[k].fields))
      else existing[k]
  }

  /** deepMerge: copy the existing keys, then merge in the template's keys one at a time. */
  method DeepMerge(existing: map<string, Json>, template: map<string, Json>) returns (result: map<string, Json>)
    ensures result == Merged(existing, template)
    decreases JObject(template)
  {
    result := map[];
    var keys := existing.Keys;
    while keys != {}
      invariant keys <= existing.Keys
      invariant result == map k | k in existing.Keys - keys :: existing[k]
      decreases keys
    {
      var k :| k in keys;
      result := result[k := existing[k]];
      keys := keys - {k};
    }
    assert result == existing;
    keys := template.Keys;
    while keys != {}
      invariant keys <= template.Keys
      invariant result.Keys == existing.Keys + (template.Keys - keys)
      invariant forall k :: k in result ==> result[k] == (if k in template.Keys - keys then Merged(existing, template)[k] else existing[k])
      decreases keys
    {
      var k :| k in keys;
      var templateVal := template[k];
      if k !in result {
        result := result[k := templateVal];
      } else {
        var existingVal := result[k];
        if existingVal.JObject? && templateVal.JObject? {
          var sub := DeepMerge(existingVal.fields, templateVal.fields);
          result := result[k := JObject(sub)];
        }
      }
      keys := keys - {k};
    }
  }

  /** The merged keys are the keys of both sides; a key only in the template takes its value. */
  lemma MergedKeys(existing: map<string, Json>, template: map<string, Json>, k: string)
    ensures Merged(existing, template).Keys == existing.Keys + template.Keys
    ensures k in template && k !in existing ==> Merged(existing, template)[k] == template[k]
  {
  }

  /** A key of both sides keeps the existing value unless both values are objects, which are merged. */
  lemma ExistingValueWins(existing: map<string, Json>, template: map<string, Json>, k: string)
    requires k in existing
    ensures !(k in template && existing[k].JObject? && template[k].JObject?) ==>
              Merged(existing, template)[k] == existing[k]
    ensures k in template && existing[k].JObject? && template[k].JObject? ==>
              Merged(existing, template)[k] == JObject(Merged(existing[k].fields, template[k].fields))
  {
  }

  /** An empty template leaves the existing object as it is, and merging into an empty object gives the template. */
  lemma MergeWithEmpty(m: map<string, Json>)
    ensures Merged(m, map[]) == m
    ensures Merged(map[], m) == m
  {
  }

  /** Merging an object into itself changes nothing. */
  lemma {:induction false} MergeIntoItself(m: map<string, Json>)
    ensures Merged(m, m) == m
    decreases JObject(m)
  {
    forall k | k in m && m[k].JObject?
      ensures Merged(m[k].fields, m[k].fields) == m[k].fields
    {
      MergeIntoItself(m[k].fields);
    }
  }

  /** Merging the same template a second time changes nothing. */
  lemma {:induction false} MergeTwice(existing: map<string, Json>, template: map<string, Json>)
    ensures Merged(Merged(existing, template), template) == Merged(existing, template)
    decreases JObject(template)
  {
    var once := Merged(existing, template);
    forall k | k in template && template[k].JObject? && k in once && once[k].JObject?
      ensures Merged(once[k].fields, template[k].fields) == once[k].fields
    {
      if k in existing {
        MergeTwice(existing[k].fields, template[k].fields);
      } else {
        MergeIntoItself(template[k].fields);
      }
    }
  }

  // ------------------------------------------------------------ .gitignore

  /** readLinesAsSet: the trimmed, non-empty lines. */
  function LineSet(lines: seq<string>): set<string>
    decreases |lines|
  {
    if |lines| == 0 then {}
    else
      var trimmed := TrimSpace(lines[|lines| - 1]);
      LineSet(lines[..|lines| - 1]) + (if trimmed != "" then {trimmed} else {})
  }

  method ReadLinesAsSet(lines: seq<string>) returns (set_: set<string>)
    ensures set_ == LineSet(lines)
  {
    set_ := {};
    for i := 0 to |lines|
      invariant set_ == LineSet(lines[..i])
    {
      assert lines[..i + 1][..i] == lines[..i];
      var trimmed := TrimSpace(lines[i]);
      if trimmed != "" {
        set_ := set_ + {trimmed};
      }
    }
    assert lines[..|lines|] == lines;
  }

  /** The set holds exactly the trimmed forms of the non-blank lines. */
  lemma {:induction false} LineSetMembers(lines: seq<string>, x: string)
    ensures x in LineSet(lines) <==> x != "" && exists k :: 0 <= k < |lines| && TrimSpace(lines[k]) == x
    decreases |lines|
  {
    if |lines| > 0 {
      var n := |lines| - 1;
      LineSetMembers(lines[..n], x);
      if TrimSpace(lines[n]) != x && exists k :: 0 <= k < |lines| && TrimSpace(lines[k]) == x {
        var k :| 0 <= k < |lines| && TrimSpace(lines[k]) == x;
        assert lines[..n][k] == lines[k];
      }
    }
  }

  /** One append to the existing `.gitignore`. */
  datatype GitignoreWrite = Separator | Line(text: string)

  const SeparatorText := "\n# Added by MoMorph\n"

  /** The text a write appends. */
  function WriteText(w: GitignoreWrite): string {
    match w
    case Separator => SeparatorText
    case Line(text) => text + "\n"
  }

  /** A template line is a candidate when its trimmed form is neither blank nor a comment. */
  predicate IsCandidate(trimmed: string) {
    trimmed != "" && !HasPrefix(trimmed, "#")
  }

  /** The state of the loop of MergeGitignoreFiles. */
  datatype GitignoreMerge = GitignoreMerge(
    lines: set<string>, addedSeparator: bool, addedCount: nat, writes: seq<GitignoreWrite>)

  /** The loop of MergeGitignoreFiles over the template lines, from the set of existing lines. */
  function MergeLines(existing: set<string>, template: seq<string>): GitignoreMerge
    decreases |template|
  {
    if |template| == 0 then GitignoreMerge(existing, false, 0, [])
    else
      var s := MergeLines(existing, template[..|template| - 1]);
      var line := template[|template| - 1];
      var trimmed := TrimSpace(line);
      if !IsCandidate(trimmed) || trimmed in s.lines then s
      else
        GitignoreMerge(s.lines + {trimmed}, true, s.addedCount + 1,
                       s.writes + (if s.addedSeparator then [] else [Separator]) + [Line(line)])
  }

  /** MergeGitignoreFiles: the appends made to the existing file, and how many lines were added. */
  method MergeGitignore(existingLines: seq<string>, templateLines: seq<string>)
    returns (writes: seq<GitignoreWrite>, addedCount: nat)
    ensures var s := MergeLines(LineSet(existingLines), templateLines);
            writes == s.writes && addedCount == s.addedCount
  {
    var lines := ReadLinesAsSet(existingLines);
    var addedSeparator := false;
    writes, addedCount := [], 0;
    for i := 0 to |templateLines|
      invariant MergeLines(LineSet(existingLines), templateLines[..i])
                == GitignoreMerge(lines, addedSeparator, addedCount, writes)
    {
      assert templateLines[..i + 1][..i] == templateLines[..i];
      var line := templateLines[i];
      var trimmed := TrimSpace(line);
      if trimmed == "" || HasPrefix(trimmed, "#") {
        continue;
      }
      if trimmed !in lines {
        if !addedSeparator {
          writes := writes + [Separator];
          addedSeparator := true;
        }
        writes := writes + [Line(line)];
        lines := lines + {trimmed};
        addedCount := addedCount + 1;
      }
    }
    assert templateLines[..|templateLines|] == templateLines;
  }

  /**
   * The separator is written once, first, and only when some line is added;
   * every other write is a line, one per added line.
   */
  lemma {:induction false} SeparatorOnceAndFirst(existing: set<string>, template: seq<string>)
    ensures var s := MergeLines(existing, template);
            && (s.addedSeparator <==> s.addedCount > 0)
            && (s.writes == [] <==> s.addedCount == 0)
            && (s.addedCount > 0 ==> |s.writes| == s.addedCount + 1 && s.writes[0] == Separator)
            && (forall i :: 0 < i < |s.writes| ==> s.writes[i].Line?)
    decreases |template|
  {
    if |template| > 0 {
      SeparatorOnceAndFirst(existing, template[..|template| - 1]);
    }
  }

  /**
   * Every added line is a template line, written untrimmed, whose trimmed form
   * is a candidate that was neither in the existing file nor added before.
   */
  lemma {:induction false} AddedLinesAreNew(existing: set<string>, template: seq<string>)
    ensures var s := MergeLines(existing, template);
            && (forall i :: 0 <= i < |s.writes| && s.writes[i].Line? ==>
                  && s.writes[i].text in template
                  && IsCandidate(TrimSpace(s.writes[i].text))
                  && TrimSpace(s.writes[i].text) !in existing)
            && (forall i, j :: 0 <= i < j < |s.writes| && s.writes[i].Line? && s.writes[j].Line? ==>
                  TrimSpace(s.writes[i].text) != TrimSpace(s.writes[j].text))
            && (forall i :: 0 <= i < |s.writes| && s.writes[i].Line? ==> TrimSpace(s.writes[i].text) in s.lines)
            && existing <= s.lines
    decreases |template|
  {
    if |template| > 0 {
      var n := |template| - 1;
      AddedLinesAreNew(existing, template[..n]);
      var s := MergeLines(existing, template[..n]);
      forall i | 0 <= i < |s.writes| && s.writes[i].Line?
        ensures s.writes[i].text in template
      {
        assert s.writes[i].text in template[..n];
      }
    }
  }

  /** Every candidate template line ends up in the file: it was there already, or it was added. */
  lemma {:induction false} EveryCandidateEndsUpPresent(existing: set<string>, template: seq<string>, k: nat)
    requires k < |template| && IsCandidate(TrimSpace(template[k]))
    ensures TrimSpace(template[k]) in MergeLines(existing, template).lines
    decreases |template|
  {
    var n := |template| - 1;
    if k < n {
      EveryCandidateEndsUpPresent(existing, template[..n], k);
      LinesGrow(existing, template[..n], template[n]);
    }
  }

  lemma LinesGrow(existing: set<string>, init: seq<string>, line: string)
    ensures MergeLines(existing, init).lines <= MergeLines(existing, init + [line]).lines
  {
    assert (init + [line])[..|init|] == init;
  }

  /** A line set's members are the merge's lines from the start. */
  lemma {:induction false} LinesAreExistingPlusAdded(existing: set<string>, template: seq<string>, x: string)
    ensures var s := MergeLines(existing, template);
            x in s.lines <==> x in existing || exists i :: 0 <= i < |s.writes| && s.writes[i].Line? && TrimSpace(s.writes[i].text) == x
    decreases |template|
  {
    if |template| > 0 {
      var n := |template| - 1;
      LinesAreExistingPlusAdded(existing, template[..n], x);
      var s := MergeLines(existing, template[..n]);
      var t := MergeLines(existing, template);
      if t != s {
        assert t.writes[|t.writes| - 1] == Line(template[n]);
        if exists i :: 0 <= i < |t.writes| && t.writes[i].Line? && TrimSpace(t.writes[i].text) == x {
          var i :| 0 <= i < |t.writes| && t.writes[i].Line? && TrimSpace(t.writes[i].text) == x;
          if i < |s.writes| {
            assert t.writes[i] == s.writes[i];
          }
        }
        forall i | 0 <= i < |s.writes| ensures t.writes[i] == s.writes[i] {
        }
      }
    }
  }
}
