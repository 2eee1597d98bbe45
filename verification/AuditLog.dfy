/** The append-then-trim audit file of blueprints/mcp_http.py. */
module AuditLog {
  import opened TextLines

  const MAX_LINES: nat := 5000
  const TRIM_BYTES: nat := 2_000_000

  class Log {
    /** The file's text; it is ASCII, so characters are bytes. */
    var file: string
    ghost var appended: seq<string>
    ghost var dropped: nat

    constructor ()
      ensures Valid() && appended == []
    {
      file, appended, dropped := "", [], 0;
    }

    /** The file holds exactly the entries appended so far, short of a prefix,
        and never less than the last `MAX_LINES` of them. */
    ghost predicate Valid()
      reads this
    {
      && AllOneLine(appended)
      && dropped <= |appended|
      && file == Unlines(appended[dropped..])
      && (dropped > 0 ==> |appended| - dropped >= MAX_LINES)
    }

    /** Append one entry, then trim.  JSON text never contains a newline.  A
        failed append leaves the file alone; so does a trim that cannot read it. */
    method Append(entry: string, writable: bool, readable: bool)
      requires Valid() && OneLine(entry)
      modifies this
      ensures Valid()
      ensures appended == if writable then old(appended) + [entry] else old(appended)
      ensures dropped >= old(dropped)
      ensures !writable ==> file == old(file)
      ensures writable && readable ==> |file| <= 2_000_000 || |SplitLines(file)| <= 5000
      ensures |appended| - dropped >= 5000 || dropped == 0
      ensures |old(file)| + |entry| + 1 <= TRIM_BYTES ==> dropped == old(dropped)
    {
      if writable {
        UnlinesConcat(appended[dropped..], [entry]);
        file := file + entry + [NEWLINE];
        appended := appended + [entry];
        assert appended[dropped..] == old(appended)[dropped..] + [entry];
        if readable && |file| > TRIM_BYTES {
          Trim();
          SplitUnlines(appended[dropped..]);
        }
      }
    }

    method Trim()
      requires Valid()
      modifies this`file, this`dropped
      ensures Valid() && dropped >= old(dropped)
      ensures |appended| - dropped <= MAX_LINES
      ensures |appended| - old(dropped) <= MAX_LINES ==> file == old(file) && dropped == old(dropped)
    {
      ghost var kept := appended[dropped..];
      SplitUnlines(kept);
      var lines := SplitLines(file);
      if |lines| > MAX_LINES {
        var last := lines[|lines| - MAX_LINES..];
        JoinIsUnlines(last);
        file := Join(last) + [NEWLINE];
        dropped := |appended| - MAX_LINES;
        assert last == appended[dropped..];
      }
    }
  }
}
