/** Where objects live: the href of an object in a calendar collection. */
module Addressing {
  import opened Chars

  function ObjectHref(cal: string, uid: string): string {
    TrimEndChar(cal, '/') + "/" + uid + ".ics"
  }

  /** What follows the last slash. */
  function LastSegment(href: string): string {
    if href == "" || href[|href| - 1] == '/' then ""
    else LastSegment(href[..|href| - 1]) + [href[|href| - 1]]
  }

  /** The UID an object href was made from. */
  function UidOf(href: string): string {
    var name := LastSegment(href);
    if |name| >= 4 && name[|name| - 4..] == ".ics" then name[..|name| - 4] else name
  }

  lemma {:induction false} LastSegmentOf(dir: string, name: string)
    requires '/' !in name && (dir == "" || dir[|dir| - 1] == '/')
    ensures LastSegment(dir + name) == name
    decreases |name|
  {
    if name == "" {
      assert dir + name == dir;
    } else {
      var init, c := name[..|name| - 1], name[|name| - 1];
      assert (dir + name)[..|dir + name| - 1] == dir + init && (dir + name)[|dir + name| - 1] == c;
      LastSegmentOf(dir, init);
      assert init + [c] == name;
    }
  }

  /** The UID can be read off the href. */
  lemma UidOfObjectHref(cal: string, uid: string)
    requires '/' !in uid
    ensures UidOf(ObjectHref(cal, uid)) == uid
  {
    var dir := TrimEndChar(cal, '/') + "/";
    LastSegmentOf(dir, uid + ".ics");
    assert ObjectHref(cal, uid) == dir + (uid + ".ics");
  }

  /** For slash-free UIDs an href names one object of one collection. */
  lemma ObjectHrefInjective(cal: string, uid: string, cal': string, uid': string)
    requires '/' !in uid && '/' !in uid'
    ensures ObjectHref(cal, uid) == ObjectHref(cal', uid') <==>
            TrimEndChar(cal, '/') == TrimEndChar(cal', '/') && uid == uid'
  {
    if ObjectHref(cal, uid) == ObjectHref(cal', uid') {
      UidOfObjectHref(cal, uid);
      UidOfObjectHref(cal', uid');
      var a, b := TrimEndChar(cal, '/'), TrimEndChar(cal', '/');
      assert a + ("/" + uid + ".ics") == ObjectHref(cal, uid);
      assert b + ("/" + uid + ".ics") == ObjectHref(cal', uid');
      assert |a| == |b|;
      assert a == ObjectHref(cal, uid)[..|a|] && b == ObjectHref(cal', uid')[..|b|];
    }
  }

  lemma {:induction false} LastSegmentTail(s: string)
    ensures |LastSegment(s)| <= |s| && '/' !in LastSegment(s)
    ensures s[|s| - |LastSegment(s)|..] == LastSegment(s)
    ensures |LastSegment(s)| < |s| ==> s[|s| - |LastSegment(s)| - 1] == '/'
    decreases |s|
  {
    if s != "" && s[|s| - 1] != '/' {
      var init, k := s[..|s| - 1], |s| - 1 - |LastSegment(s[..|s| - 1])|;
      LastSegmentTail(init);
      assert s[k..] == init[k..] + [s[|s| - 1]];
      assert k > 0 ==> s[k - 1] == init[k - 1];
    }
  }

  /** The UID has a slash, and right before the last one there is a character that is not a slash. */
  predicate NamesSubfolder(uid: string) {
    var k := |uid| - |LastSegment(uid)| - 1;
    0 < k < |uid| && uid[k - 1] != '/'
  }

  /** An object with a slash-free UID, in another collection, has the same href. */
  ghost predicate Collides(cal: string, uid: string) {
    exists cal', uid' ::
      '/' !in uid' && TrimEndChar(cal', '/') != TrimEndChar(cal, '/') && ObjectHref(cal', uid') == ObjectHref(cal, uid)
  }

  lemma {:induction false} LastSegmentBelow(dir: string, name: string)
    requires dir != "" && dir[|dir| - 1] == '/'
    ensures LastSegment(dir + name) == LastSegment(name)
    decreases |name|
  {
    if name == "" {
      assert dir + name == dir;
    } else {
      var init, c := name[..|name| - 1], name[|name| - 1];
      assert (dir + name)[..|dir + name| - 1] == dir + init && (dir + name)[|dir + name| - 1] == c;
      LastSegmentBelow(dir, init);
    }
  }

  lemma TrimEndCharShape(s: string, c: char)
    ensures TrimEndChar(s, c) == "" || TrimEndChar(s, c)[|TrimEndChar(s, c)| - 1] != c
    ensures s != "" && s[|s| - 1] != c ==> TrimEndChar(s, c) == s
  {
  }

  lemma SamePath(t: string, uid: string, t': string, uid': string)
    requires '/' !in uid' && t + "/" + uid + ".ics" == t' + "/" + uid' + ".ics"
    ensures t + "/" + uid == t' + "/" + uid' && uid' == LastSegment(uid)
  {
    var path, path' := t + "/" + uid, t' + "/" + uid';
    assert path == (path + ".ics")[..|path|] && path' == (path' + ".ics")[..|path'|];
    LastSegmentBelow(t + "/", uid);
    LastSegmentOf(t' + "/", uid');
  }

  lemma CollisionShape(t: string, uid: string, t': string, uid': string)
    requires '/' !in uid' && t + "/" + uid + ".ics" == t' + "/" + uid' + ".ics"
    requires t' != t && (t' == "" || t'[|t'| - 1] != '/')
    ensures NamesSubfolder(uid)
  {
    SamePath(t, uid, t', uid');
    LastSegmentTail(uid);
    var path, k := t + "/" + uid, |uid| - |uid'| - 1;
    assert t' == path[..|t'|] && t == path[..|t|];
    assert |t'| == |t| + 1 + k && path[|t|] == '/';
    assert k > 0 ==> path[|t'| - 1] == uid[k - 1];
    assert t' != "" ==> t'[|t'| - 1] == path[|t'| - 1];
  }

  /** Exactly which UIDs address an object that another collection addresses too, whatever the collection. */
  lemma SlashInUidCollides(cal: string, uid: string)
    ensures Collides(cal, uid) <==> NamesSubfolder(uid)
  {
    var t, name := TrimEndChar(cal, '/'), LastSegment(uid);
    LastSegmentTail(uid);
    if NamesSubfolder(uid) {
      var k := |uid| - |name| - 1;
      var sub := t + "/" + uid[..k];
      assert sub[|sub| - 1] == uid[k - 1];
      TrimEndCharShape(sub, '/');
      assert uid == uid[..k] + "/" + name;
      assert ObjectHref(sub, name) == ObjectHref(cal, uid);
      assert |TrimEndChar(sub, '/')| > |t|;
    }
    if cal', uid' :| '/' !in uid' && TrimEndChar(cal', '/') != t && ObjectHref(cal', uid') == ObjectHref(cal, uid) {
      TrimEndCharShape(cal', '/');
      CollisionShape(t, uid, TrimEndChar(cal', '/'), uid');
    }
  }
}
