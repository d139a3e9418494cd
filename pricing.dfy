/** The pricing routine `calcular_venda` of app.py: it inverts the
    target-margin equation to get a sale price, optionally re-prices under a
    commission cap (`teto`), and reports the price and the profit. Money and
    rates are exact reals; `imposto` and `markup` are percentages, `comissao`
    a fraction of the price. */
module Pricing {
  import opened Basics
  import opened Rounding

  /** The arguments of `calcular_venda`, in its parameter order. */
  datatype Entrada = Entrada(
    custo: real,
    markup: real,
    imposto: real,
    comissao: real,
    taxaFixa: real,
    frete: real,
    teto: Option<real>)
  {
    /** The share of the price left once tax, commission and the target
        margin are taken (line 19). */
    function Denominador(): real {
      1.0 - imposto / 100.0 - comissao - markup / 100.0
    }

    /** The same share with the commission term left out (line 25). */
    function DenominadorTeto(): real {
      1.0 - imposto / 100.0 - markup / 100.0
    }

    /** The flat costs the price has to recover. */
    function CustoBase(): real {
      custo + frete + taxaFixa
    }

    /** Python truthiness of `teto`: `None` and `0.0` are false. */
    predicate TetoAtivo() {
      teto.Some? && teto.value != 0.0
    }
  }

  /** The pair `(preco, lucro)` that `calcular_venda` returns. */
  datatype Venda = Venda(preco: real, lucro: real)

  /** The price of line 21, before any cap. */
  function PrecoBase(e: Entrada): (p: real)
    requires e.Denominador() > 0.0
    ensures p * e.Denominador() == e.CustoBase()
  {
    e.CustoBase() / e.Denominador()
  }

  /** The guard of line 24: `teto` is truthy and the commission on the
      first price exceeds it. */
  predicate TetoDispara(e: Entrada): (b: bool)
    requires e.Denominador() > 0.0
    ensures b <==> e.TetoAtivo() && e.CustoBase() * e.comissao > e.teto.value * e.Denominador()
  {
    var p, d := PrecoBase(e), e.Denominador();
    assert p * e.comissao * d == e.CustoBase() * e.comissao;
    CancelaPositivo(p * e.comissao, if e.teto.Some? then e.teto.value else 0.0, d);
    CancelaPositivo(if e.teto.Some? then e.teto.value else 0.0, p * e.comissao, d);
    e.TetoAtivo() && PrecoBase(e) * e.comissao > e.teto.value
  }

  /** Line 27: the profit at price `preco`, subtracting the full percentage
      commission. */
  function Lucro(e: Entrada, preco: real): (l: real)
    ensures l == preco * e.markup / 100.0 + (preco * e.Denominador() - e.CustoBase())
  {
    preco - e.custo - preco * (e.imposto / 100.0) - preco * e.comissao - e.taxaFixa - e.frete
  }

  /** Lines 19-27 over exact reals, before the rounding of line 28. The only
      exception is the division of line 25, and only when its divisor is 0. */
  function VendaExata(e: Entrada): (r: Result<Venda>)
    ensures e.Denominador() <= 0.0 ==> r == Ok(Venda(0.0, 0.0))
    ensures r.Err? <==> e.Denominador() > 0.0 && TetoDispara(e) && e.DenominadorTeto() == 0.0
    ensures r.Err? ==> r.error == ZeroDivisionError
    ensures r.Ok? && e.Denominador() > 0.0 ==> r.value.lucro == Lucro(e, r.value.preco)
    ensures r.Ok? && e.Denominador() > 0.0 && !TetoDispara(e) ==> r.value.preco * e.Denominador() == e.CustoBase()
    ensures r.Ok? && e.Denominador() > 0.0 && TetoDispara(e) ==>
              r.value.preco * e.DenominadorTeto() == e.CustoBase() + e.teto.value
  {
    if e.Denominador() <= 0.0 then Ok(Venda(0.0, 0.0))
    else
      var preco := PrecoBase(e);
      if TetoDispara(e) then
        if e.DenominadorTeto() == 0.0 then Err(ZeroDivisionError)
        else
          var precoTeto := (e.CustoBase() + e.teto.value) / e.DenominadorTeto();
          Ok(Venda(precoTeto, Lucro(e, precoTeto)))
      else Ok(Venda(preco, Lucro(e, preco)))
  }

  /** `calcular_venda` itself: the exact pair rounded to cents, or the
      sentinel `(0, 0)` when tax, commission and margin leave nothing. */
  function CalcularVenda(e: Entrada): (r: Result<Venda>)
    ensures e.Denominador() <= 0.0 ==> r == Ok(Venda(0.0, 0.0))
    ensures r.Err? <==> VendaExata(e).Err?
    ensures r.Ok? ==> WholeCents(r.value.preco) && WholeCents(r.value.lucro)
    ensures r.Ok? ==> r.value == Venda(Round2(VendaExata(e).value.preco), Round2(VendaExata(e).value.lucro))
  {
    if e.Denominador() <= 0.0 then
      assert WholeCents(0.0);
      assert Round2(0.0) == 0.0 by { Round2WholeCents(0.0); }
      Ok(Venda(0.0, 0.0))
    else
      match VendaExata(e)
      case Err(x) => Err(x)
      case Ok(v) => Ok(Venda(Round2(v.preco), Round2(v.lucro)))
  }

  // ---------------------------------------------------------------------
  // Properties of the exact computation

  /** Infeasible inputs give exactly the sentinel `(0, 0)`, rounded or not. */
  lemma Inviavel(e: Entrada)
    requires e.Denominador() <= 0.0
    ensures VendaExata(e) == Ok(Venda(0.0, 0.0))
    ensures CalcularVenda(e) == Ok(Venda(0.0, 0.0))
  {
  }

  /** A falsy `teto` (absent or zero) switches the cap off: the result is
      that of a call without `teto`. */
  lemma TetoFalsoDesliga(e: Entrada)
    requires !e.TetoAtivo()
    ensures VendaExata(e) == VendaExata(e.(teto := None))
    ensures CalcularVenda(e) == CalcularVenda(e.(teto := None))
    ensures VendaExata(e).Ok?
  {
    if e.Denominador() > 0.0 {
      var e0 := e.(teto := None);
      var p := PrecoBase(e);
      assert !TetoDispara(e) && !TetoDispara(e0) && PrecoBase(e0) == p;
      assert Lucro(e, p) == Lucro(e0, p);
      assert VendaExata(e) == Ok(Venda(p, Lucro(e, p)));
    }
  }

  /** Without the cap the price solves the target-margin equation and the
      profit is exactly the target margin of that price. */
  lemma SemTeto(e: Entrada)
    requires e.Denominador() > 0.0 && !TetoDispara(e)
    ensures VendaExata(e).Ok?
    ensures VendaExata(e).value.preco * e.Denominador() == e.CustoBase()
    ensures VendaExata(e).value.lucro == VendaExata(e).value.preco * e.markup / 100.0
  {
  }

  /** With a non-negative commission the divisor of line 25 exceeds that of
      line 19, so line 25 never divides by zero. */
  lemma TetoNuncaDividePorZero(e: Entrada)
    requires e.comissao >= 0.0
    ensures e.Denominador() > 0.0 ==> e.DenominadorTeto() > 0.0
    ensures VendaExata(e).Ok? && CalcularVenda(e).Ok?
  {
  }

  /** x * d < y * d with d > 0 gives x < y (and likewise for <=). */
  lemma CancelaPositivo(x: real, y: real, d: real)
    requires d > 0.0
    ensures x * d < y * d ==> x < y
    ensures x * d <= y * d ==> x <= y
  {
  }

  /** When the cap fires and the divisor of line 25 is positive (as it is
      for any non-negative commission) the recomputed price is strictly
      below the uncapped one, and because line 27 still
      subtracts the full percentage commission the reported profit is the
      target margin plus `teto` minus that commission. */
  lemma ComTeto(e: Entrada)
    requires e.Denominador() > 0.0 && TetoDispara(e) && e.DenominadorTeto() > 0.0
    ensures VendaExata(e).Ok?
    ensures VendaExata(e).value.preco * e.DenominadorTeto() == e.CustoBase() + e.teto.value
    ensures VendaExata(e).value.preco < PrecoBase(e)
    ensures VendaExata(e).value.lucro
         == VendaExata(e).value.preco * e.markup / 100.0 + e.teto.value
            - VendaExata(e).value.preco * e.comissao
  {
    var p, d1, d2, t := PrecoBase(e), e.Denominador(), e.DenominadorTeto(), e.teto.value;
    var q := VendaExata(e).value.preco;
    // q * d2 = base + t < base + p * comissao = p * d2
    assert q * d2 == e.CustoBase() + t;
    assert d2 == d1 + e.comissao;
    assert p * d2 == p * d1 + p * e.comissao;
    CancelaPositivo(q, p, d2);
  }

  /** The divisor of line 25 can only be negative with a negative
      commission; for a positive cost basis the cap must then be negative
      too, and line 25 gives a positive price above the uncapped one. */
  lemma ComTetoDivisorNegativo(e: Entrada)
    requires e.Denominador() > 0.0 && TetoDispara(e) && e.DenominadorTeto() < 0.0
    requires e.CustoBase() > 0.0
    ensures e.comissao < 0.0 && e.teto.value < 0.0
    ensures VendaExata(e).Ok?
    ensures 0.0 < PrecoBase(e) < VendaExata(e).value.preco
  {
    var p, d1, d2, t := PrecoBase(e), e.Denominador(), e.DenominadorTeto(), e.teto.value;
    assert d2 == d1 + e.comissao;
    assert p > 0.0 by { CancelaPositivo(0.0, p, d1); }
    assert p * e.comissao < 0.0;
    var q := VendaExata(e).value.preco;
    assert q * d2 == e.CustoBase() + t;
    assert p * d2 == p * d1 + p * e.comissao;
    // q * d2 = base + t < base + p * comissao = p * d2, and d2 < 0
    CancelaPositivo(p, q, -d2);
  }

  /** An instance: commission -0.2 and cap -10 give 90 against an uncapped
      price of 10. */
  lemma ExemploDivisorNegativo()
    ensures var e := Entrada(1.0, 50.0, 60.0, -0.2, 0.0, 0.0, Some(-10.0));
            PrecoBase(e) == 10.0 && VendaExata(e) == Ok(Venda(90.0, Lucro(e, 90.0)))
  {
    var e := Entrada(1.0, 50.0, 60.0, -0.2, 0.0, 0.0, Some(-10.0));
    assert e.Denominador() == 0.1 && e.DenominadorTeto() == -0.1;
    assert PrecoBase(e) == 10.0;
    assert TetoDispara(e);
  }

  /** The result of `VendaExata` when the cap does not fire. */
  lemma VendaSemTeto(e: Entrada)
    requires e.Denominador() > 0.0 && !TetoDispara(e)
    ensures VendaExata(e) == Ok(Venda(PrecoBase(e), Lucro(e, PrecoBase(e))))
  {
  }

  /** The result of `VendaExata` when the cap fires and line 25 divides by
      a non-zero number. */
  lemma VendaComTeto(e: Entrada)
    requires e.Denominador() > 0.0 && TetoDispara(e) && e.DenominadorTeto() != 0.0
    ensures var q := (e.CustoBase() + e.teto.value) / e.DenominadorTeto();
            VendaExata(e) == Ok(Venda(q, Lucro(e, q)))
  {
  }

  /** Dividing by the same positive number keeps the order. */
  lemma DivisaoMonotonaNoNumerador(a: real, b: real, d: real)
    requires a <= b && d > 0.0
    ensures a / d <= b / d
  {
    var q, q' := a / d, b / d;
    assert q * d == a && q' * d == b;
    CancelaPositivo(q, q', d);
  }

  /** x <= y and c >= 0 give x * c <= y * c. */
  lemma MultiplicaNaoNegativo(x: real, y: real, c: real)
    requires x <= y && c >= 0.0
    ensures x * c <= y * c
  {
  }

  /** Two inputs that differ at most in their flat costs. */
  predicate MesmasTaxas(e: Entrada, e': Entrada) {
    && e.markup == e'.markup && e.imposto == e'.imposto
    && e.comissao == e'.comissao && e.teto == e'.teto
  }

  /** Raising the flat costs (custo, frete or taxa_fixa) never lowers the
      price, with or without the cap, as long as the commission is
      non-negative: at the point where the cap starts to fire both formulas
      give `teto / comissao`. */
  lemma PrecoMonotonoNoCusto(e: Entrada, e': Entrada)
    requires e.Denominador() > 0.0 && e.comissao >= 0.0
    requires MesmasTaxas(e, e') && e.CustoBase() <= e'.CustoBase()
    ensures VendaExata(e).Ok? && VendaExata(e').Ok?
    ensures VendaExata(e).value.preco <= VendaExata(e').value.preco
  {
    var d1, d2 := e.Denominador(), e.DenominadorTeto();
    assert e'.Denominador() == d1 && e'.DenominadorTeto() == d2;
    var p, p' := PrecoBase(e), PrecoBase(e');
    CancelaPositivo(p, p', d1);
    if TetoDispara(e) {
      if TetoDispara(e') {
        AmbosComTeto(e, e');
      } else {
        MultiplicaNaoNegativo(p, p', e.comissao);
        assert false;
      }
    } else if TetoDispara(e') {
      TetoSoNoSegundo(e, e');
    } else {
      NenhumComTeto(e, e');
    }
  }

  /** The case of `PrecoMonotonoNoCusto` where the cap fires on both. */
  lemma AmbosComTeto(e: Entrada, e': Entrada)
    requires e.Denominador() > 0.0 && e.comissao >= 0.0
    requires MesmasTaxas(e, e') && e.CustoBase() <= e'.CustoBase()
    requires TetoDispara(e) && TetoDispara(e')
    ensures VendaExata(e).Ok? && VendaExata(e').Ok?
    ensures VendaExata(e).value.preco <= VendaExata(e').value.preco
  {
    var d2, t := e.DenominadorTeto(), e.teto.value;
    assert e'.DenominadorTeto() == d2 && d2 == e.Denominador() + e.comissao;
    VendaComTeto(e);
    VendaComTeto(e');
    DivisaoMonotonaNoNumerador(e.CustoBase() + t, e'.CustoBase() + t, d2);
  }

  /** The case of `PrecoMonotonoNoCusto` where the cap fires only on the
      dearer input: `p * d2 == base + p * comissao <= base + teto`. */
  lemma TetoSoNoSegundo(e: Entrada, e': Entrada)
    requires e.Denominador() > 0.0 && e.comissao >= 0.0
    requires MesmasTaxas(e, e') && e.CustoBase() <= e'.CustoBase()
    requires !TetoDispara(e) && TetoDispara(e')
    ensures VendaExata(e).Ok? && VendaExata(e').Ok?
    ensures VendaExata(e).value.preco <= VendaExata(e').value.preco
  {
    var d1, d2, t := e.Denominador(), e.DenominadorTeto(), e.teto.value;
    assert e'.DenominadorTeto() == d2 && d2 == d1 + e.comissao;
    VendaSemTeto(e);
    VendaComTeto(e');
    PrecoAbaixoDoTeto(PrecoBase(e), d1, e.comissao, t, e.CustoBase(), d2);
    DivisaoMonotonaNoNumerador(e.CustoBase() + t, e'.CustoBase() + t, d2);
  }

  /** A higher target margin never lowers the price, for a non-negative
      cost basis and as long as the input stays feasible. Under a cap this
      needs a positive cap: a negative commission then never reaches the
      cap, and with a non-negative one the cap, once it fires, keeps firing
      as the margin rises while the divisor of line 25 shrinks. */
  lemma PrecoMonotonoNaMargem(e: Entrada, e': Entrada)
    requires e' == e.(markup := e'.markup) && e.markup <= e'.markup
    requires e'.Denominador() > 0.0 && e.CustoBase() >= 0.0
    requires e.TetoAtivo() ==> e.teto.value > 0.0
    ensures e.Denominador() > 0.0
    ensures VendaExata(e).Ok? && VendaExata(e').Ok?
    ensures VendaExata(e).value.preco <= VendaExata(e').value.preco
  {
    MargemPrecoBase(e, e');
    if e.TetoAtivo() && e.comissao < 0.0 {
      // the commission of either first price is at most 0, below the cap
      MultiplicaNaoNegativo(0.0, PrecoBase(e), -e.comissao);
      MultiplicaNaoNegativo(0.0, PrecoBase(e'), -e.comissao);
      NenhumComTeto(e, e');
    } else if e.TetoAtivo() && TetoDispara(e) {
      MultiplicaNaoNegativo(PrecoBase(e), PrecoBase(e'), e.comissao);
      MargemAmbosComTeto(e, e');
    } else if e.TetoAtivo() && TetoDispara(e') {
      MargemTetoSoNoSegundo(e, e');
    } else {
      NenhumComTeto(e, e');
    }
  }

  /** The first price of line 21 grows with the margin. */
  lemma MargemPrecoBase(e: Entrada, e': Entrada)
    requires e' == e.(markup := e'.markup) && e.markup <= e'.markup
    requires e'.Denominador() > 0.0 && e.CustoBase() >= 0.0
    ensures e.Denominador() > 0.0
    ensures 0.0 <= PrecoBase(e) <= PrecoBase(e')
  {
    DivisaoMonotona(e.CustoBase(), e.Denominador(), e'.Denominador());
    assert PrecoBase(e) >= 0.0 by { CancelaPositivo(0.0, PrecoBase(e), e.Denominador()); }
  }

  /** The case of both monotonicity lemmas where the cap fires on neither
      input: the order of the first prices is that of the results. */
  lemma NenhumComTeto(e: Entrada, e': Entrada)
    requires e.Denominador() > 0.0 && e'.Denominador() > 0.0
    requires !TetoDispara(e) && !TetoDispara(e')
    requires PrecoBase(e) <= PrecoBase(e')
    ensures VendaExata(e).Ok? && VendaExata(e').Ok?
    ensures VendaExata(e).value.preco <= VendaExata(e').value.preco
  {
    assert VendaExata(e) == Ok(Venda(PrecoBase(e), Lucro(e, PrecoBase(e))));
    assert VendaExata(e') == Ok(Venda(PrecoBase(e'), Lucro(e', PrecoBase(e'))));
  }

  /** Dividing a non-negative amount by a smaller positive divisor never
      gives less. */
  lemma DivisaoMonotona(b: real, d: real, d': real)
    requires b >= 0.0 && 0.0 < d' <= d
    ensures b / d <= b / d'
  {
    var q, q' := b / d, b / d';
    assert q * d == b && q' * d' == b;
    assert q >= 0.0 by { CancelaPositivo(0.0, q, d); }
    assert q * d' <= q * d;
    CancelaPositivo(q, q', d');
  }

  /** A price `p` that solves `p * d1 == b` and whose commission `p * c`
      stays within `t` is at most `(b + t) / d2` for `d2 == d1 + c > 0`,
      and for any positive `d2 <= d1 + c` when `p` is non-negative. */
  lemma PrecoAbaixoDoTeto(p: real, d1: real, c: real, t: real, b: real, d2: real)
    requires p * d1 == b && p * c <= t && 0.0 < d2 <= d1 + c
    requires p >= 0.0 || d2 == d1 + c
    ensures p <= (b + t) / d2
  {
    var q := (b + t) / d2;
    assert q * d2 == b + t;
    assert p * d2 <= p * (d1 + c) == b + p * c;
    CancelaPositivo(p, q, d2);
  }

  /** The case of `PrecoMonotonoNaMargem` where the cap fires on both:
      `(base + teto) / d2` with a smaller `d2`. */
  lemma MargemAmbosComTeto(e: Entrada, e': Entrada)
    requires e' == e.(markup := e'.markup) && e.markup <= e'.markup
    requires e'.Denominador() > 0.0 && e.CustoBase() >= 0.0
    requires e.comissao >= 0.0 && e.TetoAtivo() && e.teto.value > 0.0
    requires e.Denominador() > 0.0 && TetoDispara(e) && TetoDispara(e')
    ensures VendaExata(e).Ok? && VendaExata(e').Ok?
    ensures VendaExata(e).value.preco <= VendaExata(e').value.preco
  {
    var t := e.teto.value;
    assert 0.0 < e'.DenominadorTeto() <= e.DenominadorTeto();
    VendaComTeto(e);
    VendaComTeto(e');
    DivisaoMonotona(e.CustoBase() + t, e.DenominadorTeto(), e'.DenominadorTeto());
  }

  /** The case of `PrecoMonotonoNaMargem` where the cap fires only at the
      higher margin: `p * d2' <= p * d2 == base + p * comissao <= base + teto`. */
  lemma MargemTetoSoNoSegundo(e: Entrada, e': Entrada)
    requires e' == e.(markup := e'.markup) && e.markup <= e'.markup
    requires e'.Denominador() > 0.0 && e.CustoBase() >= 0.0
    requires e.comissao >= 0.0 && e.TetoAtivo() && e.teto.value > 0.0
    requires e.Denominador() > 0.0 && !TetoDispara(e) && TetoDispara(e')
    requires PrecoBase(e) >= 0.0
    ensures VendaExata(e).Ok? && VendaExata(e').Ok?
    ensures VendaExata(e).value.preco <= VendaExata(e').value.preco
  {
    var t := e.teto.value;
    assert 0.0 < e'.DenominadorTeto() <= e.Denominador() + e.comissao;
    VendaSemTeto(e);
    VendaComTeto(e');
    PrecoAbaixoDoTeto(PrecoBase(e), e.Denominador(), e.comissao, t, e.CustoBase(), e'.DenominadorTeto());
  }
}
