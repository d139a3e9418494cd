/** The marketplace rules app.py wraps around `calcular_venda` when a
    product is added: the commission table per category, the Mercado Livre
    fixed fee, the Shopee rate, fee and cap, and the "Melhor Canal"
    verdict. */
module Channels {
  import opened Basics
  import opened Rounding
  import opened Pricing

  /** The three commission rates of one category (`ml_classico`,
      `ml_premium`, `shopee_base`), as fractions of the price. */
  datatype Taxas = Taxas(mlClassico: real, mlPremium: real, shopeeBase: real)

  /** `CATEGORIAS_DATA`. */
  const CategoriasData: map<string, Taxas> := map[
    "Eletrônicos" := Taxas(0.12, 0.17, 0.14),
    "Acessórios Automotivos" := Taxas(0.14, 0.19, 0.14),
    "Casa e Decoração" := Taxas(0.11, 0.16, 0.14),
    "Moda/Vestuário" := Taxas(0.15, 0.20, 0.14),
    "Outros" := Taxas(0.13, 0.18, 0.14)
  ]

  predicate Fracao(x: real) { 0.0 < x < 1.0 }

  /** The shape every row of the table has: premium listings cost five
      points more than classic ones, and every rate is a proper fraction. */
  predicate TaxasCoerentes(t: Taxas) {
    && t.mlPremium == t.mlClassico + 0.05
    && Fracao(t.mlClassico) && Fracao(t.mlPremium) && Fracao(t.shopeeBase)
  }

  /** The Mercado Livre commission of line 50: any listing type other than
      "Clássico" is charged the premium rate; an unknown category raises
      `KeyError`. */
  function TaxaMl(categoria: string, anuncioMl: string): (r: Result<real>)
    ensures r.Err? <==> categoria !in CategoriasData
    ensures r.Err? ==> r.error == KeyError(categoria)
    ensures r.Ok? ==> r.value == if anuncioMl == "Clássico" then CategoriasData[categoria].mlClassico
                                 else CategoriasData[categoria].mlPremium
  {
    if categoria !in CategoriasData then Err(KeyError(categoria))
    else
      var t := CategoriasData[categoria];
      Ok(if anuncioMl == "Clássico" then t.mlClassico else t.mlPremium)
  }

  /** The Mercado Livre fixed fee of line 51: waived from 79 of cost plus
      shipping on. */
  function TaxaFixaMl(custo: real, frete: real): (f: real)
    ensures f == 6.75 <==> custo + frete < 79.0
    ensures f == 0.0 <==> custo + frete >= 79.0
  {
    if custo + frete < 79.0 then 6.75 else 0.0
  }

  /** The Shopee commission of line 55: the free-shipping programme replaces
      0.14 by 0.20. */
  function TaxaShopee(freteGratis: bool): (taxa: real)
    ensures taxa == 0.20 <==> freteGratis
    ensures taxa == 0.14 <==> !freteGratis
  {
    if freteGratis then 0.20 else 0.14
  }

  /** The Shopee fixed fee and commission cap passed at line 56. */
  const TaxaFixaShopee: real := 4.0
  const TetoShopee: real := 103.0

  /** The arguments of the Mercado Livre call at line 52: no `teto`, so the
      call never raises. */
  function EntradaMl(custo: real, markup: real, imposto: real, frete: real, taxaMl: real): (e: Entrada)
    ensures e.custo == custo && e.markup == markup && e.imposto == imposto && e.frete == frete
    ensures e.comissao == taxaMl && e.taxaFixa == TaxaFixaMl(custo, frete) && !e.TetoAtivo()
    ensures VendaExata(e).Ok? && CalcularVenda(e).Ok?
  {
    TetoFalsoDesliga(Entrada(custo, markup, imposto, taxaMl, TaxaFixaMl(custo, frete), frete, None));
    Entrada(custo, markup, imposto, taxaMl, TaxaFixaMl(custo, frete), frete, None)
  }

  /** The arguments of the Shopee call at line 56: fee 4.0 and a truthy cap
      of 103.0; the commission is non-negative, so the call never raises. */
  function EntradaShopee(custo: real, markup: real, imposto: real, frete: real, freteGratis: bool): (e: Entrada)
    ensures e.custo == custo && e.markup == markup && e.imposto == imposto && e.frete == frete
    ensures e.comissao == TaxaShopee(freteGratis) && e.taxaFixa == 4.0 && e.teto == Some(103.0)
    ensures e.TetoAtivo() && e.teto.value > 0.0
    ensures VendaExata(e).Ok? && CalcularVenda(e).Ok?
  {
    TetoNuncaDividePorZero(Entrada(custo, markup, imposto, TaxaShopee(freteGratis), TaxaFixaShopee, frete, Some(TetoShopee)));
    Entrada(custo, markup, imposto, TaxaShopee(freteGratis), TaxaFixaShopee, frete, Some(TetoShopee))
  }

  datatype Canal = MercadoLivre | Shopee

  /** The label stored under "Melhor Canal". */
  function Rotulo(c: Canal): (s: string)
    ensures s == "Mercado Livre" <==> c == MercadoLivre
    ensures s == "Shopee" <==> c == Shopee
  {
    match c
    case MercadoLivre => "Mercado Livre"
    case Shopee => "Shopee"
  }

  /** The verdict of line 67 on the two (rounded) profits. */
  function MelhorCanal(lucroMl: real, lucroShopee: real): (c: Canal)
    ensures c == MercadoLivre <==> lucroMl > lucroShopee
  {
    if lucroMl > lucroShopee then MercadoLivre else Shopee
  }

  /** The record appended to the product list at lines 59-68. */
  datatype Linha = Linha(
    produto: string,
    categoria: string,
    custo: real,
    precoMl: real,
    lucroMl: real,
    precoShopee: real,
    lucroShopee: real,
    melhorCanal: string)

  /** Lines 50-68 up to the append: price the product on both channels and
      pick the better one. The only exception left is the `KeyError` of an
      unknown category; the fixed rates of both channels keep line 25 from
      dividing by zero. */
  function AdicionarProduto(nome: string, categoria: string, custo: real, markup: real,
                            imposto: real, frete: real, anuncioMl: string, freteShopee: bool): (r: Result<Linha>)
    ensures r.Err? <==> categoria !in CategoriasData
    ensures r.Err? ==> r.error == KeyError(categoria)
    ensures r.Ok? ==> r.value.produto == nome && r.value.categoria == categoria && r.value.custo == custo
    ensures r.Ok? ==>
              var ml := EntradaMl(custo, markup, imposto, frete, TaxaMl(categoria, anuncioMl).value);
              var sh := EntradaShopee(custo, markup, imposto, frete, freteShopee);
              && CalcularVenda(ml) == Ok(Venda(r.value.precoMl, r.value.lucroMl))
              && CalcularVenda(sh) == Ok(Venda(r.value.precoShopee, r.value.lucroShopee))
    ensures r.Ok? ==> r.value.melhorCanal == "Mercado Livre" || r.value.melhorCanal == "Shopee"
    ensures r.Ok? ==> (r.value.melhorCanal == "Mercado Livre" <==> r.value.lucroMl > r.value.lucroShopee)
    ensures r.Ok? ==> (WholeCents(r.value.precoMl) && WholeCents(r.value.lucroMl)
                       && WholeCents(r.value.precoShopee) && WholeCents(r.value.lucroShopee))
  {
    match TaxaMl(categoria, anuncioMl)
    case Err(x) => Err(x)
    case Ok(taxaMl) =>
      var ml := EntradaMl(custo, markup, imposto, frete, taxaMl);
      var sh := EntradaShopee(custo, markup, imposto, frete, freteShopee);
      var vml, vsh := CalcularVenda(ml).value, CalcularVenda(sh).value;
      var canal := MelhorCanal(vml.lucro, vsh.lucro);
      Ok(Linha(nome, categoria, custo, vml.preco, vml.lucro, vsh.preco, vsh.lucro, Rotulo(canal)))
  }

  // ---------------------------------------------------------------------
  // Properties of the channel rules

  /** Every row of `CATEGORIAS_DATA` has the premium rate five points above
      the classic one, all rates in (0, 1), and a `shopee_base` equal to the
      rate line 55 uses without free shipping (the column itself is never
      read). */
  lemma TabelaCoerente()
    ensures forall k | k in CategoriasData :: TaxasCoerentes(CategoriasData[k])
    ensures forall k | k in CategoriasData :: CategoriasData[k].shopeeBase == TaxaShopee(false)
  {
  }

  /** Every Mercado Livre commission line 50 can select is a proper
      fraction. */
  lemma TaxaMlFracao(categoria: string, anuncioMl: string)
    requires categoria in CategoriasData
    ensures TaxaMl(categoria, anuncioMl).Ok? && Fracao(TaxaMl(categoria, anuncioMl).value)
  {
  }

  /** The Mercado Livre fixed fee never grows with cost plus shipping. */
  lemma TaxaFixaMlNaoCresce(custo: real, frete: real, custo': real, frete': real)
    requires custo + frete <= custo' + frete'
    ensures TaxaFixaMl(custo', frete') <= TaxaFixaMl(custo, frete)
  {
  }

  /** Free shipping raises the Shopee rate by six points (the "+6%" of the
      checkbox), and both rates are proper fractions. */
  lemma RegrasShopee(freteGratis: bool)
    ensures TaxaShopee(true) == TaxaShopee(false) + 0.06
    ensures Fracao(TaxaShopee(freteGratis))
  {
  }

  /** Equal profits go to Shopee. */
  lemma MelhorCanalEmpate(lucro: real)
    ensures MelhorCanal(lucro, lucro) == Shopee
  {
  }

  /** The verdict is taken on rounded profits, yet it never contradicts the
      exact ones: "Mercado Livre" means the exact Mercado Livre profit is
      strictly larger, and an exact lead of more than one cent is never
      lost to rounding. */
  lemma MelhorCanalPeloLucroExato(lucroMl: real, lucroShopee: real)
    ensures MelhorCanal(Round2(lucroMl), Round2(lucroShopee)) == MercadoLivre ==> lucroMl > lucroShopee
    ensures lucroMl > lucroShopee + 0.01 ==> MelhorCanal(Round2(lucroMl), Round2(lucroShopee)) == MercadoLivre
  {
    if lucroMl <= lucroShopee {
      Round2Monotone(lucroMl, lucroShopee);
    }
  }

  /** For a product added to the list, "Mercado Livre" is recorded only when
      the exact Mercado Livre profit beats the exact Shopee profit. */
  lemma VereditoSegueLucroExato(nome: string, categoria: string, custo: real, markup: real,
                                                  imposto: real, frete: real, anuncioMl: string, freteShopee: bool)
    requires categoria in CategoriasData
    ensures var r := AdicionarProduto(nome, categoria, custo, markup, imposto, frete, anuncioMl, freteShopee);
            var ml := EntradaMl(custo, markup, imposto, frete, TaxaMl(categoria, anuncioMl).value);
            var sh := EntradaShopee(custo, markup, imposto, frete, freteShopee);
            r.Ok? && VendaExata(ml).Ok? && VendaExata(sh).Ok?
            && (r.value.melhorCanal == "Mercado Livre" ==> VendaExata(ml).value.lucro > VendaExata(sh).value.lucro)
  {
    var ml := EntradaMl(custo, markup, imposto, frete, TaxaMl(categoria, anuncioMl).value);
    var sh := EntradaShopee(custo, markup, imposto, frete, freteShopee);
    TetoFalsoDesliga(ml);
    TetoNuncaDividePorZero(sh);
    MelhorCanalPeloLucroExato(VendaExata(ml).value.lucro, VendaExata(sh).value.lucro);
  }

  /** The form's default values (cost 50, margin 15%, tax 4%, no shipping,
      "Eletrônicos", classic listing, no free shipping). */
  lemma ExemploPadrao()
    ensures AdicionarProduto("Teclado", "Eletrônicos", 50.0, 15.0, 4.0, 0.0, "Clássico", false)
         == Ok(Linha("Teclado", "Eletrônicos", 50.0, 82.25, 12.34, 80.60, 12.09, "Mercado Livre"))
  {
    var ml := EntradaMl(50.0, 15.0, 4.0, 0.0, 0.12);
    var sh := EntradaShopee(50.0, 15.0, 4.0, 0.0, false);
    assert ml.taxaFixa == 6.75;
    assert PrecoBase(ml) == 56.75 / 0.69;
    assert VendaExata(ml) == Ok(Venda(56.75 / 0.69, 56.75 / 0.69 * 0.15));
    assert PrecoBase(sh) == 54.0 / 0.67;
    assert !TetoDispara(sh);
    assert VendaExata(sh) == Ok(Venda(54.0 / 0.67, 54.0 / 0.67 * 0.15));
    assert RoundHalfEven(5675.0 / 0.69) == 8225;
    assert RoundHalfEven(56.75 / 0.69 * 15.0) == 1234;
    assert RoundHalfEven(5400.0 / 0.67) == 8060;
    assert RoundHalfEven(54.0 / 0.67 * 15.0) == 1209;
  }

  /** A product dear enough for the Shopee cap to fire under free shipping:
      the commission on the first price (about 132.46) exceeds 103, so the
      price is recomputed as 507 / 0.81, and the recorded profit still
      subtracts the full 20% commission. */
  lemma ExemploComTeto()
    ensures AdicionarProduto("Monitor", "Eletrônicos", 400.0, 15.0, 4.0, 0.0, "Clássico", true)
         == Ok(Linha("Monitor", "Eletrônicos", 400.0, 579.71, 86.96, 625.93, 71.70, "Mercado Livre"))
  {
    assert TaxaMl("Eletrônicos", "Clássico") == Ok(0.12);
    ExemploComTetoMl();
    ExemploComTetoShopee();
  }

  /** The Mercado Livre half of `ExemploComTeto`: no fixed fee from 79 on. */
  lemma ExemploComTetoMl()
    ensures CalcularVenda(EntradaMl(400.0, 15.0, 4.0, 0.0, 0.12)) == Ok(Venda(579.71, 86.96))
  {
    var ml := EntradaMl(400.0, 15.0, 4.0, 0.0, 0.12);
    assert ml == Entrada(400.0, 15.0, 4.0, 0.12, 0.0, 0.0, None);
    assert PrecoBase(ml) == 400.0 / 0.69;
    assert VendaExata(ml) == Ok(Venda(400.0 / 0.69, 400.0 / 0.69 * 0.15));
    assert RoundHalfEven(40000.0 / 0.69) == 57971;
    assert RoundHalfEven(400.0 / 0.69 * 15.0) == 8696;
  }

  /** The Shopee half of `ExemploComTeto`: the cap fires. */
  lemma ExemploComTetoShopee()
    ensures CalcularVenda(EntradaShopee(400.0, 15.0, 4.0, 0.0, true)) == Ok(Venda(625.93, 71.70))
  {
    assert EntradaShopee(400.0, 15.0, 4.0, 0.0, true) == Entrada(400.0, 15.0, 4.0, 0.20, 4.0, 0.0, Some(103.0));
    ExemploComTetoShopeeExato();
    assert RoundHalfEven(50700.0 / 0.81) == 62593;
    assert RoundHalfEven((507.0 / 0.81 * 0.76 - 404.0) * 100.0) == 7170;
  }

  /** The exact Shopee pair at cost 400 with free shipping. */
  lemma ExemploComTetoShopeeExato()
    ensures VendaExata(Entrada(400.0, 15.0, 4.0, 0.20, 4.0, 0.0, Some(103.0)))
         == Ok(Venda(507.0 / 0.81, 507.0 / 0.81 * 0.76 - 404.0))
  {
    var sh := Entrada(400.0, 15.0, 4.0, 0.20, 4.0, 0.0, Some(103.0));
    assert sh.Denominador() == 0.61 && sh.DenominadorTeto() == 0.81 && sh.CustoBase() == 404.0;
    assert PrecoBase(sh) == 404.0 / 0.61;
    assert TetoDispara(sh);
    assert Lucro(sh, 507.0 / 0.81) == 507.0 / 0.81 * 0.76 - 404.0;
  }
}
