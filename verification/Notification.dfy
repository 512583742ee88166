/** What notifier-svc makes of one task event. */
module Notification {
  import opened Base
  import TaskTable

  datatype Row = Row(userId: int, kind: string, body: string)

  const MARK: string := " task="

  function Body(subject: string, name: string): string {
    "event=" + subject + MARK + name
  }

  function RowFor(subject: string, t: TaskTable.Task): Row {
    Row(t.userId, subject, Body(subject, t.name))
  }

  /** The stored row, spelled out. */
  lemma RowIs(subject: string, t: TaskTable.Task)
    ensures RowFor(subject, t) == Row(t.userId, subject, "event=" + subject + " task=" + t.name)
  {
  }

  /** A notification fits on one line exactly when the subject and the task name do. */
  lemma BodyOneLine(subject: string, name: string)
    ensures OneLine(Body(subject, name)) <==> OneLine(subject) && OneLine(name)
  {
    var b := Body(subject, name);
    var n := 6 + |subject| + 6;
    assert b == ("event=" + subject + MARK) + name;
    assert forall i :: 0 <= i < |subject| ==> b[6 + i] == subject[i];
    assert forall i :: 0 <= i < |name| ==> b[n + i] == name[i];
    if OneLine(b) {
      forall i | 0 <= i < |subject|
        ensures !LineBreak(subject[i])
      {
        assert !LineBreak(b[6 + i]);
      }
      forall i | 0 <= i < |name|
        ensures !LineBreak(name[i])
      {
        assert !LineBreak(b[n + i]);
      }
    }
    if OneLine(subject) && OneLine(name) {
      forall k | 0 <= k < |b|
        ensures !LineBreak(b[k])
      {
        if 6 <= k < 6 + |subject| {
          assert b[k] == subject[k - 6];
        } else if k >= n {
          assert b[k] == name[k - n];
        }
      }
    }
  }

  /** The second subject holds the first one, the mark, and the start of the first name. */
  ghost predicate Overlaps(subject: string, name: string, subject': string, name': string) {
    exists x: string :: subject' == subject + MARK + x && name == x + MARK + name'
  }

  lemma OverlapSameBody(subject: string, name: string, subject': string, name': string)
    requires Overlaps(subject, name, subject', name')
    ensures Body(subject, name) == Body(subject', name')
  {
    var x :| subject' == subject + MARK + x && name == x + MARK + name';
    assert "event=" + (subject + MARK + x) + MARK + name' == "event=" + subject + MARK + (x + MARK + name');
  }

  /** Two copies of the mark cannot overlap. */
  lemma MarksApart(a: string, n: string, a': string, n': string)
    requires a + MARK + n == a' + MARK + n' && |a| < |a'|
    ensures |a| + |MARK| <= |a'|
  {
    var t, k := a + MARK + n, |a'|;
    assert t[k] == (a' + MARK)[k] == ' ';
    assert forall i :: |a| < i < |a| + 6 ==> t[i] == MARK[i - |a|] != ' ';
  }

  lemma SharedPrefix(a: string, n: string, a': string, n': string) returns (x: string)
    requires a + MARK + n == a' + MARK + n' && |a| < |a'|
    ensures a' == a + MARK + x && n == x + MARK + n'
  {
    MarksApart(a, n, a', n');
    var t, m := a + MARK + n, |a| + |MARK|;
    x := t[m..|a'|];
    assert t[..|a'|] == a' && t[..m] == a + MARK;
    assert t[|a'|..] == MARK + n';
    assert t[m..] == n;
  }

  lemma SameBodyOverlaps(subject: string, name: string, subject': string, name': string)
    requires Body(subject, name) == Body(subject', name') && |subject| < |subject'|
    ensures Overlaps(subject, name, subject', name')
  {
    var a, a' := "event=" + subject, "event=" + subject';
    var x := SharedPrefix(a, name, a', name');
    assert a'[6..] == subject' && a[6..] == subject;
    assert (a + MARK + x)[6..] == subject + MARK + x;
  }

  /** Two notifications have the same text exactly when subject and task name agree, or one subject
      runs into the mark and on into the other's task name. */
  lemma BodyDetermines(subject: string, name: string, subject': string, name': string)
    ensures Body(subject, name) == Body(subject', name') <==>
            || (subject == subject' && name == name')
            || Overlaps(subject, name, subject', name') || Overlaps(subject', name', subject, name)
  {
    var b, b', n := Body(subject, name), Body(subject', name'), |subject|;
    assert b[6..6 + n] == subject && b[12 + n..] == name;
    if Overlaps(subject, name, subject', name') {
      OverlapSameBody(subject, name, subject', name');
    }
    if Overlaps(subject', name', subject, name) {
      OverlapSameBody(subject', name', subject, name);
    }
    if b == b' {
      if |subject| < |subject'| {
        SameBodyOverlaps(subject, name, subject', name');
      } else if |subject'| < |subject| {
        SameBodyOverlaps(subject', name', subject, name);
      } else {
        assert b'[6..6 + n] == subject' && b'[12 + n..] == name';
      }
    }
  }

  lemma OverlapHasSpace(subject: string, name: string, subject': string, name': string)
    requires Overlaps(subject, name, subject', name')
    ensures ' ' in subject'
  {
    var x :| subject' == subject + MARK + x && name == x + MARK + name';
    assert subject'[|subject|] == MARK[0];
  }

  /** Subjects hold no spaces, so the text determines its subject and its task name. */
  lemma BodyDeterminesPlain(subject: string, name: string, subject': string, name': string)
    requires ' ' !in subject && ' ' !in subject'
    ensures Body(subject, name) == Body(subject', name') ==> subject == subject' && name == name'
  {
    BodyDetermines(subject, name, subject', name');
    if Overlaps(subject, name, subject', name') {
      OverlapHasSpace(subject, name, subject', name');
    } else if Overlaps(subject', name', subject, name) {
      OverlapHasSpace(subject', name', subject, name);
    }
  }
}
