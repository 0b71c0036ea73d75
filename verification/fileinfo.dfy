/** The FileInfo element of a written study: the attributes read from the
    source file, stamped with a new revision, author, date and time. */
module FileInfos {
  import opened Wrappers
  import opened Xml
  import Assoc
  import Text

  /** The attributes of the written FileInfo: the stored ones with
      LastAuthor, RevNumber, Date and Time set, in that order. */
  function StampedAttrs(a: Attrs, rev: int, date: string, time: string): Attrs
  {
    var a1 := Assoc.Put(a, "LastAuthor", "Modified by PyGeoStudio");
    var a2 := Assoc.Put(a1, "RevNumber", Text.IntStr(rev));
    var a3 := Assoc.Put(a2, "Date", date);
    Assoc.Put(a3, "Time", time)
  }

  // One lemma per stamped attribute: each is a small proof on its own,
  // while one contract stating all of them is costly to check.

  lemma StampedRev(a: Attrs, rev: int, date: string, time: string)
    ensures Assoc.Get(StampedAttrs(a, rev, date, time), "RevNumber") == Some(Text.IntStr(rev))
  {
  }

  lemma StampedAuthor(a: Attrs, rev: int, date: string, time: string)
    ensures Assoc.Get(StampedAttrs(a, rev, date, time), "LastAuthor") == Some("Modified by PyGeoStudio")
  {
  }

  lemma StampedDate(a: Attrs, rev: int, date: string, time: string)
    ensures Assoc.Get(StampedAttrs(a, rev, date, time), "Date") == Some(date)
  {
    assert "Date"[0] != "Time"[0];
  }

  lemma StampedTime(a: Attrs, rev: int, date: string, time: string)
    ensures Assoc.Get(StampedAttrs(a, rev, date, time), "Time") == Some(time)
  {
  }

  lemma StampedOthers(a: Attrs, rev: int, date: string, time: string)
    ensures forall k :: k != "RevNumber" && k != "LastAuthor" && k != "Date" && k != "Time" ==>
      Assoc.Get(StampedAttrs(a, rev, date, time), k) == Assoc.Get(a, k)
  {
  }

  /** The revision number stored in the read FileInfo, when there is one
      and `int()` accepts it. */
  function StoredRevision(info: Option<Attrs>): Option<int>
  {
    if info.None? then None
    else
      var rev: Option<string> := Assoc.Get(info.value, "RevNumber");
      if rev.None? then None else Text.ParseInt(rev.value)
  }

  /** The FileInfo element written from the stored attributes, which are
      copied, not changed: LastAuthor is replaced, RevNumber incremented,
      and Date and Time come from the clock. */
  function FileInfoElement(info: Option<Attrs>, date: string, time: string): (r: Result<Element>)
    ensures r.Ok? <==> StoredRevision(info).Some?
    ensures r.Ok? ==> r.value.tag == "FileInfo" && r.value.children == []
    ensures r.Ok? ==> (
      Assoc.Get(r.value.attrs, "RevNumber") == Some(Text.IntStr(StoredRevision(info).value + 1)) &&
      Assoc.Get(r.value.attrs, "LastAuthor") == Some("Modified by PyGeoStudio") &&
      Assoc.Get(r.value.attrs, "Date") == Some(date) && Assoc.Get(r.value.attrs, "Time") == Some(time))
    ensures r.Ok? ==> forall k :: k != "RevNumber" && k != "LastAuthor" && k != "Date" && k != "Time" ==>
      Assoc.Get(r.value.attrs, k) == Assoc.Get(info.value, k)
  {
    if info.None? then Err(AttributeError("f_src_info"))
    else
      var rev: Option<string> := Assoc.Get(info.value, "RevNumber");
      if rev.None? then Err(KeyError("RevNumber"))
      else
        var n: Option<int> := Text.ParseInt(rev.value);
        if n.None? then Err(ValueError("invalid literal for int(): " + rev.value))
        else
          var a := info.value;
          var rn := n.value + 1;
          StampedRev(a, rn, date, time);
          StampedAuthor(a, rn, date, time);
          StampedDate(a, rn, date, time);
          StampedTime(a, rn, date, time);
          StampedOthers(a, rn, date, time);
          Ok(Element("FileInfo", StampedAttrs(a, rn, date, time), None, []))
  }
}
