/** One product as a scraper or an adapter returns it. Prices are whole cents. */
module RawProducts {
  import opened Prelude

  datatype Raw = Raw(
    title: string,
    price: Option<int>,
    url: string,
    image: string,
    description: string,
    brand: string,
    category: string,
    sku: string,
    ean: string,
    inStock: Option<bool>
  )
}
