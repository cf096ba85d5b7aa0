/** The closed set of supported retail chains and the classifier that maps a
    free-text retailer name onto it. */
module Retailers {
  import opened Strings

  datatype RetailerId = Dia | Carrefour | Jumbo | Vea {
    /** The identifier's text, as the service spells it. */
    function Name(): string {
      match this
      case Dia => "dia"
      case Carrefour => "carrefour"
      case Jumbo => "jumbo"
      case Vea => "vea"
    }
  }

  const RETAILERS: seq<RetailerId> := [Dia, Carrefour, Jumbo, Vea]

  /** Display metadata per retailer; `labelText` is the source's `label` (a reserved word in Dafny). */
  datatype RetailerMeta = RetailerMeta(labelText: string, logo: string, color: string)

  const RETAILER_META: map<RetailerId, RetailerMeta> := map[
    Dia := RetailerMeta("DIA", "/images/dia.png", "red"),
    Carrefour := RetailerMeta("Carrefour", "/images/carrefour.png", "blue"),
    Jumbo := RetailerMeta("Jumbo", "/images/jumbo.png", "green"),
    Vea := RetailerMeta("Vea", "/images/vea.png", "yellow")
  ]

  /** Every identifier is listed once in RETAILERS and has display data. */
  lemma RetailerTablesComplete()
    ensures forall r: RetailerId :: r in RETAILERS && r in RETAILER_META
    ensures |RETAILERS| == 4 && forall i, j :: 0 <= i < j < |RETAILERS| ==> RETAILERS[i] != RETAILERS[j]
  {
    forall r: RetailerId
      ensures r in RETAILERS && r in RETAILER_META
    {
      match r
      case Dia => assert RETAILERS[0] == r;
      case Carrefour => assert RETAILERS[1] == r;
      case Jumbo => assert RETAILERS[2] == r;
      case Vea => assert RETAILERS[3] == r;
    }
  }

  /** Lower-cased and trimmed, then matched against the chain names in the
      order carrefour, jumbo, vea, with dia as the fallback. */
  function NormalizeRetailer(r: string): (id: RetailerId)
    ensures var t := Trim(Lower(r));
      && (Contains(t, "carrefour") ==> id == Carrefour)
      && (!Contains(t, "carrefour") && Contains(t, "jumbo") ==> id == Jumbo)
      && (!Contains(t, "carrefour") && !Contains(t, "jumbo") && Contains(t, "vea") ==> id == Vea)
      && (id == Dia <==> !Contains(t, "carrefour") && !Contains(t, "jumbo") && !Contains(t, "vea"))
  {
    var t := Trim(Lower(r));
    if Contains(t, "carrefour") then Carrefour
    else if Contains(t, "jumbo") then Jumbo
    else if Contains(t, "vea") then Vea
    else Dia
  }

  lemma {:induction false} NotContainsLonger(t: string, p: string)
    requires |t| < |p|
    ensures !Contains(t, p)
    decreases |t|
  {
    if |t| > 0 {
      NotContainsLonger(t[1..], p);
    }
  }

  /** A name free of spaces and capitals is its own normal form. */
  lemma PlainName(s: string)
    requires forall i :: 0 <= i < |s| ==> 'a' <= s[i] <= 'z'
    ensures Trim(Lower(s)) == s
  {
    assert Lower(s) == s;
    if s != [] {
      assert Trimmed(s);
    }
    assert s == [] + s + [];
    TrimUnique(s, [], s, []);
  }

  lemma NormalizeDia()
    ensures NormalizeRetailer("dia") == Dia
  {
    PlainName("dia");
    NotContainsLonger("dia", "carrefour");
    NotContainsLonger("dia", "jumbo");
    NotContainsLonger("ia", "vea");
    assert !("vea" <= "dia") by { assert "dia"[0] != "vea"[0]; }
  }

  lemma NormalizeCarrefour()
    ensures NormalizeRetailer("carrefour") == Carrefour
  {
    PlainName("carrefour");
    assert "carrefour" <= "carrefour";
  }

  lemma NormalizeJumbo()
    ensures NormalizeRetailer("jumbo") == Jumbo
  {
    PlainName("jumbo");
    NotContainsLonger("jumbo", "carrefour");
    assert "jumbo" <= "jumbo";
  }

  lemma NormalizeVea()
    ensures NormalizeRetailer("vea") == Vea
  {
    PlainName("vea");
    NotContainsLonger("vea", "carrefour");
    NotContainsLonger("vea", "jumbo");
    assert "vea" <= "vea";
  }

  /** Each chain's own name classifies as that chain. */
  lemma NormalizeRetailerIdentity(r: RetailerId)
    ensures NormalizeRetailer(r.Name()) == r
  {
    match r
    case Dia => NormalizeDia();
    case Carrefour => NormalizeCarrefour();
    case Jumbo => NormalizeJumbo();
    case Vea => NormalizeVea();
  }

  lemma LowerIdempotent(s: string)
    ensures Lower(Lower(s)) == Lower(s)
  {
  }

  /** Matching does not see letter case. */
  lemma NormalizeRetailerCaseInsensitive(s: string)
    ensures NormalizeRetailer(Lower(s)) == NormalizeRetailer(s)
  {
    LowerIdempotent(s);
  }

  /** Matching does not see the spaces around the name. */
  lemma NormalizeRetailerIgnoresSpaces(ws: string, s: string, ws': string)
    requires AllSpace(ws) && AllSpace(ws')
    ensures NormalizeRetailer(ws + s + ws') == NormalizeRetailer(s)
  {
    LowerAppend(ws + s, ws');
    LowerAppend(ws, s);
    LowerKeepsSpace(ws);
    LowerKeepsSpace(ws');
    TrimIgnoresSurroundingSpace(Lower(ws), Lower(s), Lower(ws'));
  }
}
