/** What a client gets back with GET after a SET, from the bytes of the two lines to the bytes of the answers. */
module SetGet {
  import opened CStrings
  import opened CommandLine
  import opened Interpreter
  import opened Service
  import opened Wire
  import Resp

  lemma BulkInjective(sent: Bytes, a: Bytes, b: Bytes)
    ensures sent + BulkLines(a) == sent + BulkLines(b) <==> a == b
  {
    if sent + BulkLines(a) == sent + BulkLines(b) {
      assert (sent + BulkLines(a))[|sent|..] == BulkLines(a) && (sent + BulkLines(b))[|sent|..] == BulkLines(b);
      Resp.EncodedBytes(Resp.Bulk(a));
      Resp.EncodedBytes(Resp.Bulk(b));
      Resp.DecodeEncoded(Resp.Bulk(a), []);
      Resp.DecodeEncoded(Resp.Bulk(b), []);
      assert BulkLines(a) + [] == BulkLines(b) + [];
    }
  }

  /**
   * SET then GET: the answer is the words of the value joined by single spaces, and that is the value itself
   * exactly when it is tidy. Nothing else in the sixteen maps changes.
   */
  lemma SetThenGet(s: Session, k: Bytes, v: Bytes, env: Env)
    requires SessionOk(s) && s.open && Plain(k) && OneLine(v) && Words(v) != []
    requires |Line("SET", k + [32] + v)| < 0x8000_0000 && |Line("GET", k)| < 0x8000_0000
    ensures ShortFrames(Line("SET", k + [32] + v) + Line("GET", k))
    ensures var t := ServeBytes(s, Line("SET", k + [32] + v) + Line("GET", k), env);
            && t == s.(dicts := s.dicts[s.db := s.dicts[s.db][k := Join(Words(v))]],
                       frames := s.frames + 2, secondSeen := true, replies := t.replies)
            && Sent(t) == Sent(s) + OkLine() + BulkLines(Join(Words(v)))
            && (Sent(t) == Sent(s) + OkLine() + BulkLines(v) <==> Tidy(v))
  {
    hide ServeBytes, ShortFrames, Sent, OkLine, BulkLines, Words;
    var f, g := Line("SET", k + [32] + v), Line("GET", k);
    var m := s.dicts[s.db := s.dicts[s.db][k := Join(Words(v))]];
    SetSends(s, k, v, env);
    SetAsks(k, v);
    var u := ServeBytes(s, f, env);
    assert u == s.(dicts := m, frames := s.frames + 1, secondSeen := true, replies := u.replies);
    GetSends(u, k, env);
    WordAsks("GET", k);
    TwoLines(s, f, g, env);
    ComesBackExactly(v);
    BulkInjective(Sent(s) + OkLine(), Join(Words(v)), v);
  }

  lemma JoinHasNoCrlf(v: Bytes)
    ensures OneLine(Join(Words(v)))
  {
    WordsAreClean(v);
    JoinFree(Words(v), CR);
  }

  lemma {:induction false} JoinFree(ws: seq<Bytes>, b: byte)
    requires b != SPACE && forall i | 0 <= i < |ws| :: b !in ws[i]
    ensures b !in Join(ws)
  {
    if |ws| > 1 {
      JoinFree(ws[..|ws| - 1], b);
    }
  }

  /** Setting a key to the value read from it changes nothing, for values that reached the server as C strings. */
  lemma SetAgain(s: Session, k: Bytes, v: Bytes, env: Env)
    requires SessionOk(s) && s.open && Plain(k) && NulFree(v) && Words(v) != []
    requires k in s.dicts[s.db] && s.dicts[s.db][k] == Join(Words(v))
    requires |Line("SET", k + [32] + Join(Words(v)))| < 0x8000_0000
    ensures Served(s, Line("SET", k + [32] + Join(Words(v))), env, s, OkLine())
  {
    hide Served;
    var w := Join(Words(v));
    JoinHasNoCrlf(v);
    JoinIsStable(v);
    SetSends(s, k, w, env);
    var m := s.dicts[s.db];
    assert m[k := w] == m;
    assert s.dicts[s.db := m] == s.dicts;
  }
}
