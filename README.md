# Pricing calculator core, modelled in Dafny

This project models the pricing logic of a marketplace pricing calculator (a
Streamlit app, `app.py`). A product's acquisition cost (`custo`), target
margin (`markup`, percent of price), tax (`imposto`, percent of price),
shipping (`frete`) and a channel's commission (`comissao`, fraction of
price), fixed fee (`taxa_fixa`) and optional commission cap (`teto`) go in.
`calcular_venda` inverts the target-margin equation

    preco = (custo + frete + taxa_fixa) / (1 - imposto/100 - comissao - markup/100)

and returns the price and the profit rounded to cents. It returns the
sentinel `(0, 0)` when the denominator is not positive. When the cap is
truthy and the commission on that price exceeds it, the price is
recomputed with the cap as a flat cost and without the commission term.
Around it, app.py prices each product on Mercado Livre and on Shopee. The
Mercado Livre rate comes from a category table, plus a 6.75 fixed fee below
79 of cost and shipping. Shopee uses 0.14, or 0.20 with free shipping,
with fee 4.0 and cap 103.0. The app then records the channel with the
larger profit.

Files:

- `basics.dfy` (module `Basics`): `Option` for `teto=None`, the Python
  exceptions the code can raise (`ZeroDivisionError`, `KeyError`), `Result`.
- `rounding.dfy` (module `Rounding`): Python's `round(x, 2)` over exact
  reals, round half to even on cents, with its nearest-value and
  monotonicity properties.
- `pricing.dfy` (module `Pricing`): `calcular_venda`. `VendaExata` is the
  exact computation of lines 19-27. `CalcularVenda` adds the rounding of
  line 28. The lemmas cover the sentinel, both branches, the cap and
  monotonicity.
- `channels.dfy` (module `Channels`): `CATEGORIAS_DATA` (the constant
  map `CategoriasData`, app.py:6-12), the channel rules of lines 50-56
  (with the Shopee fee and cap as the constants `TaxaFixaShopee` and
  `TetoShopee`, app.py:56), the verdict of line 67, and the record built
  at lines 59-68. The table and the two constants are constants, not
  functions; their values are stated by `TabelaCoerente` and
  `EntradaShopee`.

Money and rates are Dafny `real`s. `teto` is an `Option<real>` that is
active under Python truthiness: present and non-zero. Every function that
models a source function is total. The division at line 25 yields `Err(ZeroDivisionError)` when its
divisor is zero. That can only happen with a negative commission, and
`TetoNuncaDividePorZero` proves it never happens otherwise. A category
missing from the table yields `Err(KeyError(categoria))`.

Behaviour of app.py that the model keeps as written:

- Ties go to Shopee: "Mercado Livre" is recorded only for a strictly larger
  Mercado Livre profit.
- The profit of line 27 always subtracts the full percentage commission
  `preco * comissao`, even when the cap fired. So in the capped branch the
  reported profit is `preco*markup/100 + teto - preco*comissao`, not the
  target margin (`ComTeto`).
- The second denominator (line 25) is not checked. A negative value needs
  a negative commission; with a positive cost basis it also needs a
  negative cap, and then gives a positive price above the uncapped one
  (`ComTetoDivisorNegativo`). Zero raises.
- Profit is computed from the unrounded price. There is no ".90" rounding,
  no margin-percent output and no effective-fees output.
- The `shopee_base` column of the table is never read. Line 55 hard-codes
  the rates, and the table's 0.14 agrees with the rate without free
  shipping (`TabelaCoerente`).

## Model

| member | source | states |
|---|---|---|
| `Rounding.RoundHalfEven` | app.py:28 | the result is within 1/2 of its argument, and on an exact tie it is even (Python's `round`) |
| `Rounding.RoundHalfEvenNearest` | app.py:28 | no integer is closer to the argument than the rounded value |
| `Rounding.Round2` | app.py:28 | `round(x, 2)` is a whole number of cents at most half a cent from `x`, and on an exact half-cent tie an even number of cents |
| `Rounding.Round2WholeCents` | app.py:28 | rounding leaves a whole number of cents unchanged |
| `Rounding.Round2Monotone` | app.py:28 | rounding to cents never reverses the order of two values |
| `Pricing.PrecoBase` | app.py:21 | the first price solves `preco * denominador == custo + frete + taxa_fixa` |
| `Pricing.TetoDispara` | app.py:24 | the cap fires exactly when `teto` is truthy and `base * comissao > teto * denominador`, i.e. the commission on the first price exceeds the cap |
| `Pricing.Lucro` | app.py:27 | the profit at a price is its target margin `preco*markup/100` plus the amount `preco*denominador - base` by which the price overshoots the target-margin equation |
| `Pricing.VendaExata` | app.py:18-27 | infeasible inputs give `(0, 0)`; the only failure is `ZeroDivisionError`, exactly when the cap fires and the line-25 divisor is 0; otherwise the price solves the line-21 equation `preco * denominador == base` or, when the cap fires, the line-25 equation `preco * (1 - imposto/100 - markup/100) == base + teto`, and the profit is that of line 27 at that price |
| `Pricing.CalcularVenda` | app.py:18-28 | `(0, 0)` for infeasible inputs; fails exactly when the exact computation does; otherwise both outputs are the exact ones rounded to whole cents |
| `Pricing.Inviavel` | app.py:19-20 | a non-positive denominator gives exactly `(0, 0)`, rounded or not |
| `Pricing.TetoFalsoDesliga` | app.py:24 | a falsy `teto` (`None` or 0) gives the same result as no `teto`, and never fails |
| `Pricing.SemTeto` | app.py:19-27 | without the cap the price solves the target-margin equation and the profit equals `preco * markup / 100` |
| `Pricing.TetoNuncaDividePorZero` | app.py:19-25 | with `comissao >= 0`, a positive first denominator makes the second one positive, so no call fails |
| `Pricing.ComTetoDivisorNegativo` | app.py:24-25 | a negative line-25 divisor forces a negative commission and, for a positive cost basis, a negative cap; the price is then positive and above the uncapped one |
| `Pricing.ComTeto` | app.py:24-27 | when the cap fires and the line-25 divisor `1 - imposto/100 - markup/100` is positive (as it is for any `comissao >= 0`), the new price solves `preco * (1 - imposto/100 - markup/100) == base + teto`, is strictly below the uncapped price, and its profit is `preco*markup/100 + teto - preco*comissao` |
| `Pricing.PrecoMonotonoNoCusto` | app.py:19-25 | with the same rates and `teto` and `comissao >= 0`, a larger `custo + frete + taxa_fixa` never gives a lower price, whichever branches the two inputs take |
| `Pricing.PrecoMonotonoNaMargem` | app.py:19-25 | with a non-negative cost basis, a higher target margin never lowers the price while the input stays feasible; with a truthy cap this holds for a positive cap, whichever branches the two inputs take |
| `Channels.TaxaMl` | app.py:50 | an unknown category raises `KeyError`; "Clássico" selects `ml_classico` and any other listing type `ml_premium` |
| `Channels.TabelaCoerente` | app.py:6-12 | in every category `ml_premium == ml_classico + 0.05`, all rates lie in (0, 1), and `shopee_base` equals the no-free-shipping Shopee rate |
| `Channels.TaxaMlFracao` | app.py:50 | every Mercado Livre commission the lookup selects for a known category is a proper fraction |
| `Channels.TaxaFixaMl` | app.py:51 | the fixed fee is 6.75 exactly when `custo + frete < 79` and 0 exactly when it is at least 79 |
| `Channels.TaxaFixaMlNaoCresce` | app.py:51 | the fixed fee never grows with cost plus shipping |
| `Channels.EntradaMl` | app.py:52 | the Mercado Livre call passes the form's cost, margin, tax and shipping, the selected rate, the line-51 fee and no `teto`, and it never raises |
| `Channels.TaxaShopee` | app.py:55 | the Shopee rate is 0.20 exactly with free shipping and 0.14 exactly without |
| `Channels.RegrasShopee` | app.py:55 | free shipping adds six points to the Shopee rate, and both rates lie in (0, 1) |
| `Channels.EntradaShopee` | app.py:56 | the Shopee call passes the form's values, the line-55 rate, fee 4.0 and the truthy cap 103.0, and it never raises |
| `Channels.Rotulo` | app.py:67 | the label is "Mercado Livre" exactly for that channel and "Shopee" exactly for the other |
| `Channels.MelhorCanal` | app.py:67 | the verdict is Mercado Livre exactly when its profit is strictly greater |
| `Channels.MelhorCanalEmpate` | app.py:67 | equal profits give Shopee |
| `Channels.MelhorCanalPeloLucroExato` | app.py:67 | a Mercado Livre verdict on rounded profits implies a strictly larger exact profit, and an exact lead of more than one cent always gives Mercado Livre |
| `Channels.AdicionarProduto` | app.py:50-68 | the record is built exactly when the category is known (otherwise `KeyError`); its Mercado Livre and Shopee price and profit are exactly `calcular_venda` of the line-52 and line-56 arguments; its label is "Mercado Livre" exactly when that profit is strictly greater, else "Shopee"; all prices and profits are whole cents |
| `Channels.VereditoSegueLucroExato` | app.py:50-67 | for a known category neither pricing call fails, and a recorded "Mercado Livre" means the exact Mercado Livre profit beats the exact Shopee one |
| `Channels.ExemploPadrao` | app.py:50-67 | with the form's default inputs the record is ML 82.25 / 12.34, Shopee 80.60 / 12.09, "Mercado Livre" |
| `Channels.ExemploComTeto` | app.py:50-67 | at cost 400 with free shipping the Shopee cap fires: Shopee 625.93 / 71.70 against ML 579.71 / 86.96 |

## Left out

- The Streamlit user interface (title, expander, columns, inputs, slider, radio, checkbox, button, messages). It is presentation and holds no logic. The model takes the values those widgets deliver as parameters.
- The session-held product list (its initialisation, the append of line 59, the reset and `st.rerun`). It is framework state. `AdicionarProduto` models the record that is appended, not the list.
- The pandas table, its highlighting, the CSV encoding and the download button. These are library calls and I/O.
- IEEE floating point. Money is exact `real`, so float error, NaN and infinities are not modelled.
- `Rounding.Round2`: models `round(x, 2)` as round-half-even on the exact real value. CPython rounds the binary float value, so a decimal tie stored inexactly may round the other way.
- The input widgets' bounds (`custo >= 0.01`, margin 5..50). No function requires them, because `calcular_venda` does not.
- `Pricing.PrecoMonotonoNaMargem`: both inputs must stay feasible, because a higher margin can push an input into the `(0, 0)` sentinel. The cost basis `custo + frete + taxa_fixa` must be non-negative, because `frete` has no lower bound in the form and for a negative basis `base / d` falls as the margin rises. Under a truthy cap it also needs `teto > 0`: with a negative cap the capped price `(base + teto) / d2` can be negative and then falls as the margin rises.
