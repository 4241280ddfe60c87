/** Quota threshold arithmetic over the life of a volume: creation (service/isiService.go), modification and
    expansion (service/controller.go). Go's 64-bit wrap-around and truncating division are explicit. */
module QuotaThresholds {
  import opened Strings

  datatype Quota = Quota(hard: int, soft: int, advisory: int, grace: int)

  /** Two's-complement wrap-around of an int64 product. */
  function Wrap64(n: int): (r: int)
    ensures IsInt64(r) && (r == n <==> IsInt64(n))
    ensures exists k :: r == n - 0x1_0000_0000_0000_0000 * k
  {
    var k := (n + 0x8000_0000_0000_0000) / 0x1_0000_0000_0000_0000;
    n - 0x1_0000_0000_0000_0000 * k
  }

  /** Go divides toward zero. */
  function DivideBy100(n: int): int {
    if n >= 0 then n / 100 else 0 - (0 - n) / 100
  }

  /** `(pct * size) / 100` as the driver computes it. */
  function PercentOf(pct: int, size: int): int { DivideBy100(Wrap64(pct * size)) }

  const PERCENT_SAFE: int := MAX_INT64 / 100

  // ---- creation ----

  function ParseOrZero(s: string): int { match Atoi(s) case Some(n) => n case None => 0 }

  function LimitFrom(text: string, size: int): int {
    match Atoi(text) case Some(n) => PercentOf(n, size) case None => 0
  }

  /** The thresholds CreateQuota sends; `None` when it creates no quota. */
  function NewThresholds(softLimit: string, advisoryLimit: string, softGracePrd: string, size: int, enabled: bool)
    : Option<Quota>
  {
    var soft, advisory, grace := LimitFrom(softLimit, size), LimitFrom(advisoryLimit, size), ParseOrZero(softGracePrd);
    if !enabled || size <= 0 then None
    else if soft >= size || advisory >= size then Some(Quota(size, 0, 0, 0))
    else if soft != 0 && grace == 0 then Some(Quota(size, 0, advisory, 0))
    else Some(Quota(size, soft, advisory, grace))
  }

  method CreateQuota(softLimit: string, advisoryLimit: string, softGracePrd: string, size: int, enabled: bool)
    returns (quota: Option<Quota>)
    ensures quota == NewThresholds(softLimit, advisoryLimit, softGracePrd, size, enabled)
  {
    var softInt, advisoryInt, graceInt := 0, 0, 0;
    var grace := Atoi(softGracePrd);
    if grace.Some? { graceInt := grace.value; }
    if softLimit != "" {
      var pct := Atoi(softLimit);
      if pct.Some? { softInt := PercentOf(pct.value, size); }
    }
    if advisoryLimit != "" {
      var pct := Atoi(advisoryLimit);
      if pct.Some? { advisoryInt := PercentOf(pct.value, size); }
    }
    if enabled {
      if size <= 0 { return None; }
      if softInt >= size || advisoryInt >= size { softInt, advisoryInt, graceInt := 0, 0, 0; }
      if softInt != 0 && graceInt == 0 { softInt, graceInt := 0, 0; }
      return Some(Quota(size, softInt, advisoryInt, graceInt));
    }
    return None;
  }

  // ---- modification ----

  const SOFT_LIMIT := "SoftLimit"
  const ADVISORY_LIMIT := "AdvisoryLimit"
  const SOFT_GRACE := "SoftGracePrd"

  predicate IsLimit(key: string) { key == SOFT_LIMIT || key == ADVISORY_LIMIT }

  /** validateMutableParamKeys for one parameter. */
  predicate ValidParam(key: string, value: string) {
    (IsLimit(key) || key == SOFT_GRACE) && Atoi(value).Some? && Atoi(value).value >= 0
  }

  predicate Convertible(q: Quota, key: string, value: string) {
    ValidParam(key, value) && (IsLimit(key) ==> Atoi(value).value <= 100 && q.hard != 0)
  }

  function Converted(q: Quota, key: string, value: string): int {
    if IsLimit(key) then PercentOf(ParseOrZero(value), q.hard) else ParseOrZero(value)
  }

  /** The converted parameters, or `None` when the request is refused. */
  function ConvertParams(q: Quota, params: map<string, string>): Option<map<string, int>> {
    if forall k :: k in params ==> Convertible(q, k, params[k])
    then Some(map k | k in params :: Converted(q, k, params[k]))
    else None
  }

  method ValidateParams(params: map<string, string>, order: seq<string>) returns (ok: bool)
    requires forall k :: k in params <==> k in order
    ensures ok <==> forall k :: k in params ==> ValidParam(k, params[k])
  {
    for i := 0 to |order|
      invariant forall j :: 0 <= j < i ==> ValidParam(order[j], params[order[j]])
    {
      if !ValidParam(order[i], params[order[i]]) {
        assert order[i] in params;
        return false;
      }
    }
    ok := true;
  }

  ghost predicate AllConverted(q: Quota, params: map<string, string>, done: seq<string>, converted: map<string, int>) {
    && (forall k :: k in done ==> k in params && Convertible(q, k, params[k]))
    && (forall k :: k in converted <==> k in done)
    && (forall k :: k in converted ==> k in params && converted[k] == Converted(q, k, params[k]))
  }

  /** One parameter; `None` when a percentage is over 100 or the quota has no hard limit. */
  method ConvertOne(q: Quota, key: string, value: string) returns (r: Option<int>)
    requires ValidParam(key, value)
    ensures r == if Convertible(q, key, value) then Some(Converted(q, key, value)) else None
  {
    var v := ParseOrZero(value);
    if IsLimit(key) {
      if v > 100 || q.hard == 0 { return None; }
      return Some(PercentOf(v, q.hard));
    }
    return Some(v);
  }

  /** The conversion loops. Go ranges over a map in no fixed order; `order` is whatever order it picks, and
      the result does not depend on it. */
  method ConvertInOrder(q: Quota, params: map<string, string>, order: seq<string>) returns (r: Option<map<string, int>>)
    requires forall k :: k in params <==> k in order
    ensures r == ConvertParams(q, params)
  {
    var ok := ValidateParams(params, order);
    if !ok { return None; }
    var converted: map<string, int> := map[];
    for i := 0 to |order|
      invariant AllConverted(q, params, order[..i], converted)
    {
      var key := order[i];
      assert key in params && order[..i + 1] == order[..i] + [key];
      var one := ConvertOne(q, key, params[key]);
      if one.None? { return None; }
      converted := converted[key := one.value];
    }
    assert order[..|order|] == order;
    assert converted == map k | k in params :: Converted(q, k, params[k]);
    return Some(converted);
  }

  function FieldOr(c: map<string, int>, key: string, current: int): int { if key in c then c[key] else current }

  /** Only the given thresholds change. */
  function Modified(q: Quota, c: map<string, int>): Quota {
    q.(soft := FieldOr(c, SOFT_LIMIT, q.soft), advisory := FieldOr(c, ADVISORY_LIMIT, q.advisory),
       grace := FieldOr(c, SOFT_GRACE, q.grace))
  }

  function ModifyVolume(q: Quota, params: map<string, string>): Option<Quota> {
    match ConvertParams(q, params)
    case None => None
    case Some(c) => Some(Modified(q, c))
  }

  // ---- expansion ----

  /** ControllerExpandVolume. The quotient is taken first, so limits grow by whole factors only. */
  function ExpandVolume(q: Quota, required: int): Option<Quota> {
    if required <= q.hard then Some(q)
    else if q.hard == 0 then None
    else
      var factor := required / q.hard;
      Some(Quota(required, Wrap64(q.soft * factor), Wrap64(q.advisory * factor), q.grace))
  }

  // ---- properties ----

  ghost predicate InBounds(q: Quota) {
    0 < q.hard <= MAX_INT64 && 0 <= q.soft <= q.hard && 0 <= q.advisory <= q.hard
  }

  lemma ProductBound(pct: int, size: int)
    requires 0 <= pct <= 100 && 0 <= size <= PERCENT_SAFE
    ensures 0 <= pct * size <= 100 * size <= MAX_INT64
  {
  }

  lemma PercentInBounds(pct: int, size: int)
    requires 0 <= pct <= 100 && 0 <= size <= PERCENT_SAFE
    ensures PercentOf(pct, size) == pct * size / 100 && 0 <= PercentOf(pct, size) <= size
  {
    ProductBound(pct, size);
  }

  /** The percentage is computed exactly if and only if the product fits into 64 bits. */
  lemma PercentExactIffNoOverflow(pct: int, size: int)
    ensures PercentOf(pct, size) == DivideBy100(pct * size) <==> IsInt64(pct * size)
  {
    var n := pct * size;
    if !IsInt64(n) {
      var k :| Wrap64(n) == n - 0x1_0000_0000_0000_0000 * k;
      assert k != 0;
      QuotientsDiffer(n, Wrap64(n));
    }
  }

  lemma QuotientsDiffer(m: int, n: int)
    requires m - n >= 0x1_0000_0000_0000_0000 || n - m >= 0x1_0000_0000_0000_0000
    ensures DivideBy100(m) != DivideBy100(n)
  {
  }

  /** What happens then: half of an exbibyte and a half is stored as a negative limit. */
  lemma OverflowGoesNegative()
    ensures PercentOf(50, 0x1800_0000_0000_0000) < 0
  {
    assert 50 * 0x1800_0000_0000_0000 == 4 * 0x1_0000_0000_0000_0000 + 0xB000_0000_0000_0000;
    assert Wrap64(50 * 0x1800_0000_0000_0000) < 0;
  }

  /** A limit text the storage class documents: empty, not a number, or a percentage. */
  predicate PercentText(s: string) { Atoi(s).Some? ==> 0 <= Atoi(s).value <= 100 }

  lemma CreatedInBounds(softLimit: string, advisoryLimit: string, softGracePrd: string, size: int)
    requires PercentText(softLimit) && PercentText(advisoryLimit) && 0 < size <= PERCENT_SAFE
    ensures var r := NewThresholds(softLimit, advisoryLimit, softGracePrd, size, true);
            && r.Some? && r.value.hard == size && InBounds(r.value)
            && r.value.soft < size && r.value.advisory < size && (r.value.soft != 0 ==> r.value.grace != 0)
  {
    if Atoi(softLimit).Some? { PercentInBounds(Atoi(softLimit).value, size); }
    if Atoi(advisoryLimit).Some? { PercentInBounds(Atoi(advisoryLimit).value, size); }
  }

  /** Exactly when a created quota is in bounds, for every text and every size: one of the limits reaches the
      hard limit and both are reset, or neither stored limit is negative, a negative soft limit being reset
      when there is no grace period. */
  lemma CreatedInBoundsIff(softLimit: string, advisoryLimit: string, softGracePrd: string, size: int)
    requires 0 < size <= MAX_INT64
    ensures var r := NewThresholds(softLimit, advisoryLimit, softGracePrd, size, true);
            var s, a, g := LimitFrom(softLimit, size), LimitFrom(advisoryLimit, size), ParseOrZero(softGracePrd);
            r.Some? && (InBounds(r.value) <==> s >= size || a >= size || (a >= 0 && (s >= 0 || g == 0)))
  {
  }

  /** What that means for the percentages, as long as the products do not overflow: a limit is negative when
      the product is at most -100, and reaches the hard limit from 100 percent on. */
  lemma LimitByPercent(pct: int, size: int)
    requires size > 0 && IsInt64(pct * size)
    ensures PercentOf(pct, size) < 0 <==> pct * size <= -100
    ensures PercentOf(pct, size) >= size <==> pct >= 100
  {
    if pct >= 100 {
      MulAtLeast(pct, 100, size);
    } else {
      MulAtLeast(99, pct, size);
    }
  }

  lemma MulAtLeast(m: int, n: int, size: int)
    requires m >= n && size > 0
    ensures m * size >= n * size
  {
  }

  /** So without overflow the bounds are decided by the percentages alone. */
  lemma PercentagesDecide(softLimit: string, advisoryLimit: string, softGracePrd: string, size: int)
    requires 0 < size <= MAX_INT64
    requires IsInt64(ParseOrZero(softLimit) * size) && IsInt64(ParseOrZero(advisoryLimit) * size)
    ensures var r := NewThresholds(softLimit, advisoryLimit, softGracePrd, size, true);
            var s, a, g := ParseOrZero(softLimit), ParseOrZero(advisoryLimit), ParseOrZero(softGracePrd);
            r.Some? && (InBounds(r.value)
                        <==> s >= 100 || a >= 100 || (a * size > -100 && (s * size > -100 || g == 0)))
  {
    CreatedInBoundsIff(softLimit, advisoryLimit, softGracePrd, size);
    LimitByPercent(ParseOrZero(softLimit), size);
    LimitByPercent(ParseOrZero(advisoryLimit), size);
    ZeroPercent(size);
  }

  lemma ZeroPercent(size: int)
    ensures PercentOf(0, size) == 0
  {
  }

  lemma ModifiedInBounds(q: Quota, params: map<string, string>)
    requires InBounds(q) && q.hard <= PERCENT_SAFE
    ensures ModifyVolume(q, params).Some? ==>
              InBounds(ModifyVolume(q, params).value) && ModifyVolume(q, params).value.hard == q.hard
  {
    forall k | k in params && Convertible(q, k, params[k]) && IsLimit(k)
      ensures 0 <= Converted(q, k, params[k]) <= q.hard
    {
      PercentInBounds(Atoi(params[k]).value, q.hard);
    }
  }

  /** Exactly which requests are accepted. */
  predicate Acceptable(q: Quota, params: map<string, string>) {
    forall k :: k in params ==>
      && (k == "SoftLimit" || k == "AdvisoryLimit" || k == "SoftGracePrd")
      && Atoi(params[k]).Some? && 0 <= Atoi(params[k]).value
      && (k != "SoftGracePrd" ==> Atoi(params[k]).value <= 100 && q.hard != 0)
  }

  function Share(params: map<string, string>, key: string, hard: int, current: int): int {
    if key in params && Atoi(params[key]).Some? then Atoi(params[key]).value * hard / 100 else current
  }

  /** What an accepted request makes of a quota, in terms of its own texts: each limit that is named becomes that
      percentage of the hard limit, the grace period the number given, and what is not named stays. */
  lemma ModifiedExactly(q: Quota, params: map<string, string>)
    requires 0 <= q.hard <= PERCENT_SAFE
    ensures ModifyVolume(q, params).Some? <==> Acceptable(q, params)
    ensures ModifyVolume(q, params).Some? ==>
              var r := ModifyVolume(q, params).value;
              && r.hard == q.hard
              && r.soft == Share(params, "SoftLimit", q.hard, q.soft)
              && r.advisory == Share(params, "AdvisoryLimit", q.hard, q.advisory)
              && r.grace == (if "SoftGracePrd" in params then ParseOrZero(params["SoftGracePrd"]) else q.grace)
  {
    assert Acceptable(q, params) <==> forall k :: k in params ==> Convertible(q, k, params[k]);
    if ModifyVolume(q, params).Some? {
      forall k | k in params && IsLimit(k) ensures Converted(q, k, params[k]) == Atoi(params[k]).value * q.hard / 100 {
        PercentInBounds(Atoi(params[k]).value, q.hard);
      }
    }
  }

  /** What creation stores for percentages from 0 to 100, in plain integers: at 100 percent everything is reset, a
      soft limit needs a grace period. */
  lemma CreatedExactly(softLimit: string, advisoryLimit: string, softGracePrd: string, size: int)
    requires PercentText(softLimit) && PercentText(advisoryLimit) && 0 < size <= PERCENT_SAFE
    ensures var r := NewThresholds(softLimit, advisoryLimit, softGracePrd, size, true);
            var s, a, g := ParseOrZero(softLimit), ParseOrZero(advisoryLimit), ParseOrZero(softGracePrd);
            && r.Some? && r.value.hard == size
            && r.value.soft == (if s < 100 && a < 100 && g != 0 then s * size / 100 else 0)
            && r.value.advisory == (if s < 100 && a < 100 then a * size / 100 else 0)
            && r.value.grace == (if s < 100 && a < 100 then g else 0)
    ensures NewThresholds(softLimit, advisoryLimit, softGracePrd, size, false).None?
  {
    PercentInBounds(ParseOrZero(softLimit), size);
    PercentInBounds(ParseOrZero(advisoryLimit), size);
    BelowHard(ParseOrZero(softLimit), size);
    BelowHard(ParseOrZero(advisoryLimit), size);
    ZeroPercent(size);
  }

  lemma BelowHard(pct: int, size: int)
    requires 0 <= pct <= 100 && 0 < size
    ensures pct * size / 100 >= size <==> pct == 100
  {
    if pct < 100 { MulAtLeast(99, pct, size); }
  }

  lemma ScaledFits(limit: int, hard: int, required: int)
    requires 0 <= limit <= hard && 0 < hard < required
    ensures 0 <= limit * (required / hard) <= required
    ensures limit * (required / hard) * hard <= limit * required
  {
    var f := required / hard;
    assert f * hard <= required;
    assert limit * f <= hard * f;
    assert limit * f * hard == limit * (f * hard);
    assert limit * (f * hard) <= limit * required;
  }

  /** For every requested size the products in an expansion fit into 64 bits, the limits stay below the new
      hard limit, and the share of the hard limit they stand for does not rise. */
  lemma ExpandedInBounds(q: Quota, required: int)
    requires InBounds(q) && IsInt64(required)
    ensures var r := ExpandVolume(q, required);
            && r.Some? && InBounds(r.value) && q.hard <= r.value.hard && required <= r.value.hard
            && NotAbove(r.value, q)
            && (required > q.hard ==>
                  IsInt64(q.soft * (required / q.hard)) && IsInt64(q.advisory * (required / q.hard)))
  {
    if required > q.hard {
      ScaledFits(q.soft, q.hard, required);
      ScaledFits(q.advisory, q.hard, required);
    }
  }

  /** An expansion in plain integers: nothing changes unless more is asked for; then both limits grow by the whole
      factor by which the hard limit does, and the grace period stays. */
  lemma ExpandedExactly(q: Quota, required: int)
    requires InBounds(q) && IsInt64(required)
    ensures ExpandVolume(q, required)
            == Some(if required <= q.hard then q
                    else Quota(required, q.soft * (required / q.hard), q.advisory * (required / q.hard), q.grace))
  {
    ExpandedInBounds(q, required);
  }

  /** Limit-to-hard ratios of `r` are at most those of `q`. */
  ghost predicate NotAbove(r: Quota, q: Quota) {
    r.soft * q.hard <= q.soft * r.hard && r.advisory * q.hard <= q.advisory * r.hard
  }

  lemma RatioTransitive(a: int, x: int, b: int, y: int, c: int, z: int)
    requires 0 < x && 0 < y && 0 < z && 0 <= a && 0 <= b && 0 <= c
    requires b * x <= a * y && c * y <= b * z
    ensures c * x <= a * z
  {
    assert (c * y) * x <= (b * z) * x;
    assert (b * x) * z <= (a * y) * z;
    assert (c * x) * y <= (a * z) * y;
    MulStrict(c * x, a * z, y);
  }

  lemma MulStrict(m: int, n: int, y: int)
    ensures m > n && y > 0 ==> m * y > n * y
  {
  }

  // ---- whole runs ----

  datatype Op =
    | Modify(params: map<string, string>)
    | Expand(required: int)

  /** One call; a refused request, or a failed array write, leaves the quota as it is. */
  function Apply(q: Quota, op: Op, writeOk: bool): Quota {
    var r := match op case Modify(params) => ModifyVolume(q, params) case Expand(required) => ExpandVolume(q, required);
    if r.Some? && writeOk then r.value else q
  }

  ghost predicate Run(trace: seq<Quota>, ops: seq<Op>, writes: seq<bool>) {
    && |trace| == |ops| + 1 && |writes| == |ops|
    && (forall i :: 0 <= i < |ops| ==> trace[i + 1] == Apply(trace[i], ops[i], writes[i]))
    && (forall i :: 0 <= i < |ops| && ops[i].Expand? ==> IsInt64(ops[i].required))
  }

  /** Over every run of create, modify and expand: both limits stay between zero and the hard limit, and the
      hard limit never shrinks, whatever the modify parameters and whatever writes fail. */
  lemma {:induction false} ThresholdsStayInBounds(softLimit: string, advisoryLimit: string, softGracePrd: string,
                                                  size: int, trace: seq<Quota>, ops: seq<Op>, writes: seq<bool>, i: nat)
    requires PercentText(softLimit) && PercentText(advisoryLimit) && 0 < size <= PERCENT_SAFE
    requires Run(trace, ops, writes) && i < |trace|
    requires forall j :: 0 <= j < |ops| && ops[j].Expand? ==> ops[j].required <= PERCENT_SAFE
    requires NewThresholds(softLimit, advisoryLimit, softGracePrd, size, true) == Some(trace[0])
    ensures InBounds(trace[i]) && size <= trace[i].hard <= PERCENT_SAFE
    ensures i > 0 ==> trace[i - 1].hard <= trace[i].hard
  {
    if i == 0 {
      CreatedInBounds(softLimit, advisoryLimit, softGracePrd, size);
    } else {
      ThresholdsStayInBounds(softLimit, advisoryLimit, softGracePrd, size, trace, ops, writes, i - 1);
      match ops[i - 1]
      case Modify(params) => ModifiedInBounds(trace[i - 1], params);
      case Expand(required) => ExpandedInBounds(trace[i - 1], required);
    }
  }

  /** Between modifications the limit-to-hard ratio never rises. */
  lemma {:induction false} RatioNeverRises(trace: seq<Quota>, ops: seq<Op>, writes: seq<bool>, i: nat)
    requires Run(trace, ops, writes) && i < |trace| && InBounds(trace[0])
    requires forall j :: 0 <= j < |ops| ==> ops[j].Expand?
    ensures InBounds(trace[i]) && NotAbove(trace[i], trace[0])
  {
    if i > 0 {
      RatioNeverRises(trace, ops, writes, i - 1);
      var p, q, o := trace[i - 1], trace[i], trace[0];
      ExpandedInBounds(p, ops[i - 1].required);
      RatioTransitive(o.soft, o.hard, p.soft, p.hard, q.soft, q.hard);
      RatioTransitive(o.advisory, o.hard, p.advisory, p.hard, q.advisory, q.hard);
    }
  }

  /** A negative percentage that is not caught at creation. */
  lemma NegativePercentEscapes()
    ensures var r := NewThresholds("-5", "", "1", 1000, true); r.Some? && r.value.soft == -50
  {
    assert "-5" == Itoa(-5) by { assert Itoa(-5) == "-" + Digits(5); }
    AtoiOfItoa(-5);
    assert "1" == Itoa(1);
    AtoiOfItoa(1);
  }
}
