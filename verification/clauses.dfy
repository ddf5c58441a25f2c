/**
 * The text of the `where` clauses sent to the feature service: quote
 * doubling for a name literal, and the `=` / `IN (...)` clause over a list
 * of project ids (ids are interpolated as they are, without escaping).
 */
module Clauses {
  import opened PyValues

  // -------------------------------------------------------------- escaping

  /** `s.replace("'", "''")`. */
  function Escape(s: string): (r: string)
    ensures |r| == |s| + multiset(s)['\'']
  {
    if s == [] then []
    else
      assert s == [s[0]] + s[1..];
      (if s[0] == '\'' then "''" else [s[0]]) + Escape(s[1..])
  }

  /** Reads an SQL string body back: every doubled quote becomes one. */
  function Unescape(s: string): string {
    if |s| >= 2 && s[0] == '\'' && s[1] == '\'' then "'" + Unescape(s[2..])
    else if s == [] then []
    else [s[0]] + Unescape(s[1..])
  }

  /** Escaping loses nothing: reading the literal back gives the original text. */
  lemma {:induction false} UnescapeEscape(s: string)
    ensures Unescape(Escape(s)) == s
  {
    if s != [] {
      UnescapeEscape(s[1..]);
      var rest := Escape(s[1..]);
      var e := Escape(s);
      if s[0] == '\'' {
        assert e == "''" + rest;
        assert e[0] == '\'' && e[1] == '\'' && e[2..] == rest;
        assert Unescape(e) == "'" + Unescape(rest);
        assert s == "'" + s[1..];
      } else {
        assert e == [s[0]] + rest;
        assert e[0] == s[0] && e[1..] == rest;
        if |e| >= 2 && e[1] == '\'' {
          assert e[0] != '\'';
        }
        assert Unescape(e) == [s[0]] + Unescape(rest);
        assert s == [s[0]] + s[1..];
      }
    }
  }

  /** Quotes in the escaped text come in adjacent pairs, so none can end the literal. */
  lemma {:induction false} EscapedQuotesPaired(s: string)
    ensures QuotesPaired(Escape(s))
  {
    if s != [] {
      EscapedQuotesPaired(s[1..]);
      var rest := Escape(s[1..]);
      if s[0] == '\'' {
        assert Escape(s) == "''" + rest;
        assert (Escape(s))[2..] == rest;
      } else {
        assert Escape(s) == [s[0]] + rest;
        assert (Escape(s))[1..] == rest;
      }
    }
  }

  /** Every quote is the first of a doubled pair, scanning from the left. */
  predicate QuotesPaired(s: string) {
    if s == [] then true
    else if s[0] == '\'' then |s| >= 2 && s[1] == '\'' && QuotesPaired(s[2..])
    else QuotesPaired(s[1..])
  }

  // --------------------------------------------------------------- id lists

  /**
   * `field = 'id'` for one id, `field IN ('a','b',...)` for more, the ids
   * joined with `','`.
   */
  function IdClause(field: string, ids: seq<string>): string
    requires |ids| > 0
  {
    if |ids| == 1 then field + " = '" + ids[0] + "'"
    else field + " IN ('" + Join("','", ids) + "')"
  }

  /** The texts between the first and second, third and fourth, ... quote. */
  function Quoted(s: string): seq<string> {
    Odds(Split(s, '\''))
  }

  function Odds<T>(s: seq<T>): (r: seq<T>)
    decreases |s|
  {
    if |s| < 2 then [] else [s[1]] + Odds(s[2..])
  }

  /** The ids separated by "," entries: `[a, ",", b, ",", c]`. */
  function Alternate(ids: seq<string>): (r: seq<string>)
    requires |ids| > 0
    ensures |r| > 0
  {
    if |ids| == 1 then ids else [ids[0], ","] + Alternate(ids[1..])
  }

  predicate NoQuote(s: string) {
    '\'' !in s
  }

  /**
   * With no quote in the field name or in any id, the quoted texts of the
   * clause are exactly the ids, in order: the clause names those ids and no
   * others.
   */
  lemma IdClauseQuotes(field: string, ids: seq<string>)
    requires |ids| > 0
    requires NoQuote(field) && forall k :: 0 <= k < |ids| ==> NoQuote(ids[k])
    ensures Quoted(IdClause(field, ids)) == ids
  {
    var parts: seq<string>;
    if |ids| == 1 {
      parts := [field + " = ", ids[0], ""];
      assert parts[1..] == [ids[0], ""] && parts[1..][1..] == [""];
      assert Join("'", [""]) == "";
      assert Join("'", [ids[0], ""]) == ids[0] + "'" + Join("'", [""]);
      assert Join("'", parts) == (field + " = ") + "'" + Join("'", [ids[0], ""]);
      assert Join("'", parts) == IdClause(field, ids);
    } else {
      parts := [field + " IN ("] + Alternate(ids) + [")"];
      JoinAlternate(ids);
      JoinWrap("'", field + " IN (", Alternate(ids), ")");
      assert Join("'", parts) == IdClause(field, ids);
    }
    forall k | 0 <= k < |parts| ensures '\'' !in parts[k] {
      if |ids| > 1 && 0 < k < |parts| - 1 {
        AlternateParts(ids, k - 1);
      }
    }
    SplitJoin('\'', parts);
    OddsAlternate(field + (if |ids| == 1 then " = " else " IN ("), ids, if |ids| == 1 then "" else ")");
  }

  lemma {:induction false} AlternateParts(ids: seq<string>, k: int)
    requires |ids| > 0 && 0 <= k < |Alternate(ids)|
    ensures Alternate(ids)[k] == "," || Alternate(ids)[k] in ids
  {
    if |ids| > 1 && k >= 2 {
      AlternateParts(ids[1..], k - 2);
    }
  }

  lemma {:induction false} JoinAlternate(ids: seq<string>)
    requires |ids| > 0
    ensures Join("','", ids) == Join("'", Alternate(ids))
  {
    if |ids| > 1 {
      JoinAlternate(ids[1..]);
      var a := Alternate(ids[1..]);
      assert ([ids[0], ","] + a)[1..] == [","] + a;
      assert ([","] + a)[1..] == a;
    }
  }

  lemma {:induction false} JoinSnoc(sep: string, ps: seq<string>, b: string)
    requires |ps| > 0
    ensures Join(sep, ps + [b]) == Join(sep, ps) + sep + b
  {
    if |ps| > 1 {
      JoinSnoc(sep, ps[1..], b);
      assert (ps + [b])[1..] == ps[1..] + [b];
    }
  }

  lemma JoinWrap(sep: string, a: string, ps: seq<string>, b: string)
    requires |ps| > 0
    ensures Join(sep, [a] + ps + [b]) == a + sep + Join(sep, ps) + sep + b
  {
    var whole := [a] + ps + [b];
    assert whole[0] == a && whole[1..] == ps + [b];
    assert Join(sep, whole) == a + sep + Join(sep, ps + [b]);
    JoinSnoc(sep, ps, b);
  }

  lemma {:induction false} OddsAlternate(a: string, ids: seq<string>, b: string)
    requires |ids| > 0
    ensures Odds([a] + Alternate(ids) + [b]) == ids
    decreases |ids|
  {
    if |ids| == 1 {
      assert [a] + Alternate(ids) + [b] == [a, ids[0], b];
    } else {
      OddsAlternate(",", ids[1..], b);
      assert ([a] + Alternate(ids) + [b])[2..] == [","] + Alternate(ids[1..]) + [b];
    }
  }
}
