/** The session list of webservice/http_service.c: the functions that keep it, on the list itself. */
module Service {
  import opened Memory
  import opened SlotList

  // Where x is first in s, or |s|.
  function IndexOf<T(==)>(s: seq<T>, x: T): (i: nat)
    ensures i <= |s| && x !in s[..i] && (i < |s| ==> s[i] == x)
  {
    if s == [] then 0 else if s[0] == x then 0 else
      var i := IndexOf(s[1..], x);
      assert s[..1 + i] == [s[0]] + s[1..][..i];
      1 + i
  }

  function Without<T(==)>(s: seq<T>, x: T): seq<T> {
    var i := IndexOf(s, x);
    if i < |s| then RemoveAt(s, i) else s
  }

  lemma {:induction false} IndexIsFirst<T>(s: seq<T>, x: T, i: nat)
    requires i <= |s| && x !in s[..i] && (i < |s| ==> s[i] == x)
    ensures IndexOf(s, x) == i
  {
    if s != [] && s[0] != x {
      assert s[..i] == [s[0]] + s[1..][..i - 1];
      IndexIsFirst(s[1..], x, i - 1);
    }
  }

  class HttpService {
    const sessions: List
    ghost var freed: seq<Pointer>  // calls of session_free, in order

    constructor ()
      ensures sessions.Valid() && fresh(sessions) && sessions.contents == [] && freed == []
    {
      sessions := new List();
      freed := [];
    }

    method SessionFree(session: Pointer)
      modifies this`freed
      ensures freed == old(freed) + [session]
    {
      freed := freed + [session];
    }

    // http_service_session_add, with the mutex held
    method SessionAdd(session: Pointer)
      requires sessions.Valid()
      modifies sessions, sessions.nodes
      ensures sessions.Valid() && sessions.contents == old(sessions.contents) + [session]
      ensures forall i :: 0 <= i < |sessions.nodes| ==>
                sessions.nodes[i] in old(sessions.nodes) || fresh(sessions.nodes[i])
    {
      sessions.PushBack(session);
    }

    // http_service_session_remove, its search with the mutex held; the session is freed in either case.
    method SessionRemove(session: Pointer) returns (found: bool)
      requires sessions.Valid()
      modifies this`freed, sessions, sessions.nodes
      ensures sessions.Valid() && sessions.contents == Without(old(sessions.contents), session)
      ensures freed == old(freed) + [session] && found == (session in old(sessions.contents))
      ensures sessions.nodes == if found then RemoveAt(old(sessions.nodes), IndexOf(old(sessions.contents), session))
                                else old(sessions.nodes)
    {
      found := false;
      var node := sessions.head;
      ghost var k := 0;
      while node != null
        invariant sessions.Valid()
        invariant sessions.nodes == old(sessions.nodes) && sessions.contents == old(sessions.contents)
        invariant k <= |sessions.nodes| && node == LinkAt(sessions.nodes, k)
        invariant session !in sessions.contents[..k] && freed == old(freed) && !found
        decreases |sessions.nodes| - k
      {
        assert List.Placed(sessions.nodes, k) && List.Holds(node, sessions.contents[k]);
        if node.data == session {
          IndexIsFirst(sessions.contents, session, k);
          var _ := sessions.Remove(node, k);
          SessionFree(session);
          return true;
        }
        assert sessions.contents[..k + 1] == sessions.contents[..k] + [node.data];
        node, k := node.next, k + 1;
      }
      assert sessions.contents[..k] == sessions.contents;
      IndexIsFirst(sessions.contents, session, k);
      SessionFree(session);
    }

    // The session part of http_service_fini, once the workers have been joined.
    method Fini()
      requires sessions.Valid() && NULL !in sessions.contents
      modifies this`freed, sessions, sessions.nodes
      ensures freed == old(freed) + old(sessions.contents)
      ensures !sessions.live && forall n :: n in old(sessions.nodes) ==> !n.live
    {
      var node := sessions.head;
      ghost var k, nodes, contents := 0, sessions.nodes, sessions.contents;
      while node != null
        invariant sessions.Valid() && sessions.nodes == nodes && sessions.contents == contents
        invariant k <= |nodes| && node == LinkAt(nodes, k) && freed == old(freed) + contents[..k]
        decreases |nodes| - k
      {
        assert List.Placed(nodes, k) && List.Holds(node, contents[k]);
        var next := node.next;
        SessionFree(node.data);
        node, k := next, k + 1;
      }
      assert contents[..k] == contents;
      DrainsEverythingIff(contents);
      assert nodes[..|nodes|] == nodes;
      sessions.Free();
    }
  }
}
